/** The reference-data page: a local list of subjects and a list of packages that group them,
    with create/edit/delete for both, the cascade of a subject deletion into every package, the
    package form's subject picker (search filter, per-subject toggle, select-all/deselect-all)
    and the comma-separated subject names shown for each package. */
module PackageSubject {
  import opened Common
  import Seqs
  import Text

  /** On this page ids are strings. */
  datatype Subject = Subject(id: string, name: string, code: string)

  datatype Package = Package(id: string, name: string, code: string, subjectIds: seq<string>)

  datatype SubjectForm = SubjectForm(name: string, code: string)

  datatype PackageForm = PackageForm(name: string, code: string, subjectIds: seq<string>)

  const EmptySubjectForm: SubjectForm := SubjectForm("", "")

  const EmptyPackageForm: PackageForm := PackageForm("", "", [])

  /** The lists the page starts with. */
  const INITIAL_SUBJECTS: seq<Subject> :=
    [Subject("1", "Mathematics", "MATH101"), Subject("2", "Physics", "PHY101")]

  const INITIAL_PACKAGES: seq<Package> :=
    [Package("1", "Science Package", "SCI001", ["1", "2"])]

  /** `!form.name || !form.code`: the save guard shared by both forms. */
  predicate Incomplete(name: string, code: string)
  {
    name == "" || code == ""
  }

  /** `subjects.map(s => s.id)`. */
  function SubjectIds(subjects: seq<Subject>): seq<string>
  {
    Seqs.Map(subjects, SubjectId)
  }

  function SubjectId(s: Subject): string
  {
    s.id
  }

  // ----- Subject and package lists -----

  /** `subjects.map(s => s.id === id ? { ...s, ...form } : s)`. */
  function EditSubjects(subjects: seq<Subject>, id: string, form: SubjectForm): (r: seq<Subject>)
    ensures |r| == |subjects|
    ensures SubjectIds(r) == SubjectIds(subjects)
    ensures forall i :: 0 <= i < |r| && subjects[i].id == id ==> r[i].name == form.name && r[i].code == form.code
    ensures forall i :: 0 <= i < |r| && subjects[i].id != id ==> r[i] == subjects[i]
  {
    var r := seq(|subjects|, i requires 0 <= i < |subjects| =>
      if subjects[i].id == id then subjects[i].(name := form.name, code := form.code) else subjects[i]);
    assert SubjectIds(r) == SubjectIds(subjects);
    r
  }

  /** `[...subjects, { id: freshId, ...form }]`. */
  function AddSubject(subjects: seq<Subject>, freshId: string, form: SubjectForm): (r: seq<Subject>)
    ensures |r| == |subjects| + 1 && r[..|subjects|] == subjects
    ensures r[|subjects|] == Subject(freshId, form.name, form.code)
  {
    subjects + [Subject(freshId, form.name, form.code)]
  }

  /** The subject list after a save: the edited subject, or a new one at the end. */
  function SavedSubjects(subjects: seq<Subject>, editing: Option<Subject>, freshId: string, form: SubjectForm): (r: seq<Subject>)
    ensures editing.Some? ==> |r| == |subjects| && SubjectIds(r) == SubjectIds(subjects)
    ensures editing.None? ==> |r| == |subjects| + 1 && r[..|subjects|] == subjects && r[|subjects|].id == freshId
  {
    if editing.Some? then EditSubjects(subjects, editing.value.id, form) else AddSubject(subjects, freshId, form)
  }

  /** `subjects.filter(s => s.id !== id)`. */
  function RemoveSubject(subjects: seq<Subject>, id: string): (r: seq<Subject>)
    ensures forall s :: s in r <==> s in subjects && s.id != id
  {
    Seqs.Filter(subjects, SubjectKept(id))
  }

  function SubjectKept(id: string): Subject -> bool
  {
    (s: Subject) => s.id != id
  }

  /** `packages.map(p => ({ ...p, subjectIds: p.subjectIds.filter(sid => sid !== id) }))`: the
      cascade of a subject deletion. */
  function DropSubject(packages: seq<Package>, id: string): (r: seq<Package>)
    ensures |r| == |packages|
    ensures forall i :: 0 <= i < |r| ==>
      r[i].id == packages[i].id && r[i].name == packages[i].name && r[i].code == packages[i].code
    ensures forall i :: 0 <= i < |r| ==> id !in r[i].subjectIds
    ensures forall i :: 0 <= i < |r| ==>
      multiset(r[i].subjectIds) == multiset(packages[i].subjectIds)[id := 0]
    ensures forall i :: 0 <= i < |r| ==> Seqs.IsSubsequence(r[i].subjectIds, packages[i].subjectIds)
  {
    seq(|packages|, i requires 0 <= i < |packages| =>
      packages[i].(subjectIds := Seqs.RemoveAll(packages[i].subjectIds, id)))
  }

  /** `packages.map(p => p.id === id ? { ...p, ...form } : p)`. */
  function EditPackages(packages: seq<Package>, id: string, form: PackageForm): (r: seq<Package>)
    ensures |r| == |packages|
    ensures forall i :: 0 <= i < |r| ==> r[i].id == packages[i].id
    ensures forall i :: 0 <= i < |r| && packages[i].id == id ==>
      r[i].name == form.name && r[i].code == form.code && r[i].subjectIds == form.subjectIds
    ensures forall i :: 0 <= i < |r| && packages[i].id != id ==> r[i] == packages[i]
  {
    seq(|packages|, i requires 0 <= i < |packages| =>
      if packages[i].id == id
      then packages[i].(name := form.name, code := form.code, subjectIds := form.subjectIds)
      else packages[i])
  }

  /** `[...packages, { id: freshId, ...form }]`. */
  function AddPackage(packages: seq<Package>, freshId: string, form: PackageForm): (r: seq<Package>)
    ensures |r| == |packages| + 1 && r[..|packages|] == packages
    ensures r[|packages|] == Package(freshId, form.name, form.code, form.subjectIds)
  {
    packages + [Package(freshId, form.name, form.code, form.subjectIds)]
  }

  /** The package list after a save: the edited package, or a new one at the end. */
  function SavedPackages(packages: seq<Package>, editing: Option<Package>, freshId: string, form: PackageForm): (r: seq<Package>)
    ensures editing.Some? ==> |r| == |packages| && forall i :: 0 <= i < |r| ==> r[i].id == packages[i].id
    ensures editing.None? ==> |r| == |packages| + 1 && r[..|packages|] == packages && r[|packages|].id == freshId
  {
    if editing.Some? then EditPackages(packages, editing.value.id, form) else AddPackage(packages, freshId, form)
  }

  /** `packages.filter(p => p.id !== id)`. */
  function RemovePackage(packages: seq<Package>, id: string): (r: seq<Package>)
    ensures forall p :: p in r <==> p in packages && p.id != id
  {
    Seqs.Filter(packages, PackageKept(id))
  }

  function PackageKept(id: string): Package -> bool
  {
    (p: Package) => p.id != id
  }

  // ----- The subject picker -----

  /** The search matches a subject when its lower-cased name or code contains the lower-cased
      query. */
  predicate MatchesQuery(query: string, s: Subject)
    ensures query == "" ==> MatchesQuery(query, s)
    ensures MatchesQuery(query, s) ==> |query| <= |s.name| || |query| <= |s.code|
  {
    Text.Contains(Text.ToLower(s.name), Text.ToLower(query))
    || Text.Contains(Text.ToLower(s.code), Text.ToLower(query))
  }

  /** The subjects the picker lists for `query`. */
  function FilteredSubjects(subjects: seq<Subject>, query: string): (r: seq<Subject>)
    ensures forall s :: s in r <==> s in subjects && MatchesQuery(query, s)
  {
    Seqs.Filter(subjects, Matcher(query))
  }

  function Matcher(query: string): Subject -> bool
  {
    s => MatchesQuery(query, s)
  }

  /** `toggleSubjectSelection`: remove the id when selected, append it otherwise. */
  function ToggleSelection(form: PackageForm, subjectId: string): (r: PackageForm)
    ensures r.name == form.name && r.code == form.code
    ensures subjectId in r.subjectIds <==> subjectId !in form.subjectIds
    ensures forall y :: y != subjectId ==> (y in r.subjectIds <==> y in form.subjectIds)
    ensures subjectId !in form.subjectIds ==> r.subjectIds == form.subjectIds + [subjectId]
    ensures subjectId in form.subjectIds ==>
      Seqs.IsSubsequence(r.subjectIds, form.subjectIds) &&
      multiset(r.subjectIds) == multiset(form.subjectIds)[subjectId := 0]
  {
    form.(subjectIds := Seqs.Toggle(form.subjectIds, subjectId))
  }

  /** `filteredSubjectIds.every(id => selected.includes(id))`; true on an empty filter. */
  predicate AllSelected(filteredIds: seq<string>, selected: seq<string>)
  {
    forall id :: id in filteredIds ==> id in selected
  }

  /** The selection after `handleSelectAll`: deselect the filtered ids when all of them are
      selected, otherwise `[...new Set([...selected, ...filteredIds])]`. */
  function SelectAll(filteredIds: seq<string>, selected: seq<string>): (r: seq<string>)
    ensures forall y :: y in r ==> y in selected || y in filteredIds
    ensures forall y :: y in selected && y !in filteredIds ==> y in r
  {
    if AllSelected(filteredIds, selected) then Seqs.RemoveEach(selected, filteredIds)
    else Seqs.Dedup(selected + filteredIds)
  }

  /** `areAllFilteredSelected`: false on an empty filter, else every filtered subject is
      selected. It picks the button's label. */
  predicate AreAllFilteredSelected(filtered: seq<Subject>, selected: seq<string>)
    ensures AreAllFilteredSelected(filtered, selected) ==> filtered != [] && filtered[0].id in selected
    ensures selected == [] ==> !AreAllFilteredSelected(filtered, selected)
  {
    |filtered| > 0 && forall s :: s in filtered ==> s.id in selected
  }

  /** The name of the first subject with `id`, if any (`subjects.find(s => s.id === id)?.name`). */
  function LookupName(subjects: seq<Subject>, id: string): (r: Option<string>)
    ensures r.None? <==> forall s :: s in subjects ==> s.id != id
    ensures r.Some? ==> exists s :: s in subjects && s.id == id && s.name == r.value
  {
    match Seqs.FindFirst(subjects, (s: Subject) => s.id == id)
    case None => None
    case Some(s) => Some(s.name)
  }

  /** The names that survive `.filter(Boolean)`: known ids with a non-empty name, in order. */
  function KnownNames(subjects: seq<Subject>, ids: seq<string>): (r: seq<string>)
    ensures |r| <= |ids|
    ensures forall n :: n in r ==> n != ""
  {
    if |ids| == 0 then []
    else
      var n := LookupName(subjects, ids[0]);
      (if n.Some? && n.value != "" then [n.value] else []) + KnownNames(subjects, ids[1..])
  }

  /** `getSubjectNames(ids)`: the known names joined by ", ". */
  function GetSubjectNames(subjects: seq<Subject>, ids: seq<string>): (r: string)
    ensures r == Text.Join(KnownNames(subjects, ids), ", ")
    ensures KnownNames(subjects, ids) == [] <==> r == ""
  {
    var names := KnownNames(subjects, ids);
    assert names != [] ==> names[0] in names;
    Text.Join(names, ", ")
  }

  // ----- The page -----

  class PackageSubjectPage {
    var subjects: seq<Subject>
    var packages: seq<Package>
    var isSubjectModalOpen: bool
    var isPackageModalOpen: bool
    var editingSubject: Option<Subject>
    var editingPackage: Option<Package>
    var subjectForm: SubjectForm
    var packageForm: PackageForm
    var subjectSearchQuery: string

    constructor ()
      ensures subjects == INITIAL_SUBJECTS && packages == INITIAL_PACKAGES
      ensures !isSubjectModalOpen && !isPackageModalOpen
      ensures editingSubject.None? && editingPackage.None?
      ensures subjectForm == EmptySubjectForm && packageForm == EmptyPackageForm
      ensures subjectSearchQuery == ""
    {
      subjects := INITIAL_SUBJECTS;
      packages := INITIAL_PACKAGES;
      isSubjectModalOpen := false;
      isPackageModalOpen := false;
      editingSubject := None;
      editingPackage := None;
      subjectForm := EmptySubjectForm;
      packageForm := EmptyPackageForm;
      subjectSearchQuery := "";
    }

    /** openSubjectModal(subject?): load the subject into the form, or start an empty one. */
    method OpenSubjectModal(subject: Option<Subject>)
      modifies this
      ensures editingSubject == subject && isSubjectModalOpen
      ensures subjectForm == (if subject.Some? then SubjectForm(subject.value.name, subject.value.code) else EmptySubjectForm)
      ensures subjects == old(subjects) && packages == old(packages) && packageForm == old(packageForm)
      ensures editingPackage == old(editingPackage) && isPackageModalOpen == old(isPackageModalOpen)
      ensures subjectSearchQuery == old(subjectSearchQuery)
    {
      if subject.Some? {
        editingSubject := subject;
        subjectForm := SubjectForm(subject.value.name, subject.value.code);
      } else {
        editingSubject := None;
        subjectForm := EmptySubjectForm;
      }
      isSubjectModalOpen := true;
    }

    /** saveSubject: `freshId` stands for `Date.now().toString()`. An incomplete form changes
        nothing; otherwise the list is updated, the modal closed and the form emptied, while
        `editingSubject` is left as it was. */
    method SaveSubject(freshId: string)
      modifies this
      ensures Incomplete(old(subjectForm.name), old(subjectForm.code)) ==>
        subjects == old(subjects) && subjectForm == old(subjectForm) && isSubjectModalOpen == old(isSubjectModalOpen)
      ensures !Incomplete(old(subjectForm.name), old(subjectForm.code)) ==>
        && subjects == SavedSubjects(old(subjects), old(editingSubject), freshId, old(subjectForm))
        && !isSubjectModalOpen && subjectForm == EmptySubjectForm
      ensures packages == old(packages) && editingSubject == old(editingSubject)
      ensures packageForm == old(packageForm) && editingPackage == old(editingPackage)
      ensures isPackageModalOpen == old(isPackageModalOpen) && subjectSearchQuery == old(subjectSearchQuery)
    {
      if Incomplete(subjectForm.name, subjectForm.code) {
        return;
      }
      subjects := SavedSubjects(subjects, editingSubject, freshId, subjectForm);
      isSubjectModalOpen := false;
      subjectForm := EmptySubjectForm;
    }

    /** deleteSubject(id): after confirmation, drop the subject and cascade into the packages. */
    method DeleteSubject(id: string, confirmed: bool)
      modifies this
      ensures subjects == (if confirmed then RemoveSubject(old(subjects), id) else old(subjects))
      ensures packages == (if confirmed then DropSubject(old(packages), id) else old(packages))
      ensures subjectForm == old(subjectForm) && packageForm == old(packageForm)
      ensures editingSubject == old(editingSubject) && editingPackage == old(editingPackage)
      ensures isSubjectModalOpen == old(isSubjectModalOpen) && isPackageModalOpen == old(isPackageModalOpen)
      ensures subjectSearchQuery == old(subjectSearchQuery)
    {
      if confirmed {
        subjects := RemoveSubject(subjects, id);
        packages := DropSubject(packages, id);
      }
    }

    /** openPackageModal(pkg?): load the package into the form, or start an empty one, and
        clear the subject search. */
    method OpenPackageModal(pkg: Option<Package>)
      modifies this
      ensures editingPackage == pkg && isPackageModalOpen && subjectSearchQuery == ""
      ensures packageForm == (if pkg.Some? then PackageForm(pkg.value.name, pkg.value.code, pkg.value.subjectIds) else EmptyPackageForm)
      ensures subjects == old(subjects) && packages == old(packages) && subjectForm == old(subjectForm)
      ensures editingSubject == old(editingSubject) && isSubjectModalOpen == old(isSubjectModalOpen)
    {
      if pkg.Some? {
        editingPackage := pkg;
        packageForm := PackageForm(pkg.value.name, pkg.value.code, pkg.value.subjectIds);
      } else {
        editingPackage := None;
        packageForm := EmptyPackageForm;
      }
      subjectSearchQuery := "";
      isPackageModalOpen := true;
    }

    /** savePackage: as saveSubject, for packages. */
    method SavePackage(freshId: string)
      modifies this
      ensures Incomplete(old(packageForm.name), old(packageForm.code)) ==>
        packages == old(packages) && packageForm == old(packageForm) && isPackageModalOpen == old(isPackageModalOpen)
      ensures !Incomplete(old(packageForm.name), old(packageForm.code)) ==>
        && packages == SavedPackages(old(packages), old(editingPackage), freshId, old(packageForm))
        && !isPackageModalOpen && packageForm == EmptyPackageForm
      ensures subjects == old(subjects) && editingPackage == old(editingPackage)
      ensures subjectForm == old(subjectForm) && editingSubject == old(editingSubject)
      ensures isSubjectModalOpen == old(isSubjectModalOpen) && subjectSearchQuery == old(subjectSearchQuery)
    {
      if Incomplete(packageForm.name, packageForm.code) {
        return;
      }
      packages := SavedPackages(packages, editingPackage, freshId, packageForm);
      isPackageModalOpen := false;
      packageForm := EmptyPackageForm;
    }

    /** deletePackage(id): after confirmation, drop the packages with that id. */
    method DeletePackage(id: string, confirmed: bool)
      modifies this
      ensures packages == (if confirmed then RemovePackage(old(packages), id) else old(packages))
      ensures subjects == old(subjects) && subjectForm == old(subjectForm) && packageForm == old(packageForm)
      ensures editingSubject == old(editingSubject) && editingPackage == old(editingPackage)
      ensures isSubjectModalOpen == old(isSubjectModalOpen) && isPackageModalOpen == old(isPackageModalOpen)
      ensures subjectSearchQuery == old(subjectSearchQuery)
    {
      if confirmed {
        packages := RemovePackage(packages, id);
      }
    }

    /** The search box of the picker. */
    method SetSubjectSearchQuery(query: string)
      modifies this
      ensures subjectSearchQuery == query
      ensures subjects == old(subjects) && packages == old(packages) && packageForm == old(packageForm)
      ensures subjectForm == old(subjectForm) && editingSubject == old(editingSubject) && editingPackage == old(editingPackage)
      ensures isSubjectModalOpen == old(isSubjectModalOpen) && isPackageModalOpen == old(isPackageModalOpen)
    {
      subjectSearchQuery := query;
    }

    /** toggleSubjectSelection(subjectId). */
    method ToggleSubjectSelection(subjectId: string)
      modifies this
      ensures packageForm == ToggleSelection(old(packageForm), subjectId)
      ensures subjects == old(subjects) && packages == old(packages) && subjectSearchQuery == old(subjectSearchQuery)
      ensures subjectForm == old(subjectForm) && editingSubject == old(editingSubject) && editingPackage == old(editingPackage)
      ensures isSubjectModalOpen == old(isSubjectModalOpen) && isPackageModalOpen == old(isPackageModalOpen)
    {
      packageForm := ToggleSelection(packageForm, subjectId);
    }

    /** handleSelectAll over the subjects the current query lists. */
    method HandleSelectAll()
      modifies this
      ensures packageForm == old(packageForm).(subjectIds :=
        SelectAll(SubjectIds(FilteredSubjects(old(subjects), old(subjectSearchQuery))), old(packageForm.subjectIds)))
      ensures subjects == old(subjects) && packages == old(packages) && subjectSearchQuery == old(subjectSearchQuery)
      ensures subjectForm == old(subjectForm) && editingSubject == old(editingSubject) && editingPackage == old(editingPackage)
      ensures isSubjectModalOpen == old(isSubjectModalOpen) && isPackageModalOpen == old(isPackageModalOpen)
    {
      var filteredIds := SubjectIds(FilteredSubjects(subjects, subjectSearchQuery));
      packageForm := packageForm.(subjectIds := SelectAll(filteredIds, packageForm.subjectIds));
    }
  }

  // ----- Properties -----

  /** Editing with the same form twice is the same as editing once. */
  lemma EditIdempotent(subjects: seq<Subject>, packages: seq<Package>, id: string, sf: SubjectForm, pf: PackageForm)
    ensures EditSubjects(EditSubjects(subjects, id, sf), id, sf) == EditSubjects(subjects, id, sf)
    ensures EditPackages(EditPackages(packages, id, pf), id, pf) == EditPackages(packages, id, pf)
  {
  }

  /** Creating with an id no subject has, then deleting that id, gives back the original list;
      and the new id keeps the ids distinct. */
  lemma AddThenRemoveSubject(subjects: seq<Subject>, freshId: string, form: SubjectForm)
    requires freshId !in SubjectIds(subjects)
    ensures RemoveSubject(AddSubject(subjects, freshId, form), freshId) == subjects
    ensures Seqs.NoDuplicates(SubjectIds(subjects)) ==> Seqs.NoDuplicates(SubjectIds(AddSubject(subjects, freshId, form)))
  {
    var added := Subject(freshId, form.name, form.code);
    assert RemoveSubject(subjects + [added], freshId) == subjects by {
      var p := SubjectKept(freshId);
      Seqs.FilterAppend(subjects, [added], p);
      forall s | s in subjects ensures p(s) {
        var k :| 0 <= k < |subjects| && subjects[k] == s;
        assert SubjectIds(subjects)[k] == s.id;
      }
      Seqs.FilterAll(subjects, p);
      assert Seqs.Filter([added], p) == [];
    }
    if Seqs.NoDuplicates(SubjectIds(subjects)) {
      assert SubjectIds(subjects + [added]) == SubjectIds(subjects) + [freshId];
    }
  }

  /** Creating a package with an id no package has, then deleting that id, gives back the
      original list. */
  lemma AddThenRemovePackage(packages: seq<Package>, freshId: string, form: PackageForm)
    requires forall p :: p in packages ==> p.id != freshId
    ensures RemovePackage(AddPackage(packages, freshId, form), freshId) == packages
  {
    var keep := PackageKept(freshId);
    Seqs.FilterAppend(packages, [Package(freshId, form.name, form.code, form.subjectIds)], keep);
    Seqs.FilterAll(packages, keep);
    assert Seqs.Filter([Package(freshId, form.name, form.code, form.subjectIds)], keep) == [];
  }

  /** After deleting a subject, no subject and no package refers to it, the surviving subjects
      keep their order, and each package keeps its name, code and every other subject id. */
  lemma DeleteSubjectCascades(subjects: seq<Subject>, packages: seq<Package>, id: string)
    ensures forall s :: s in RemoveSubject(subjects, id) ==> s.id != id
    ensures Seqs.IsSubsequence(RemoveSubject(subjects, id), subjects)
    ensures forall p :: p in DropSubject(packages, id) ==> id !in p.subjectIds
    ensures forall i, y :: 0 <= i < |packages| && y != id ==>
      (y in DropSubject(packages, id)[i].subjectIds <==> y in packages[i].subjectIds)
  {
    Seqs.FilterIsSubsequence(subjects, SubjectKept(id));
    var r := DropSubject(packages, id);
    forall i, y | 0 <= i < |packages| && y != id
      ensures y in r[i].subjectIds <==> y in packages[i].subjectIds
    {
      assert multiset(r[i].subjectIds)[y] == multiset(packages[i].subjectIds)[y];
    }
  }

  /** deletePackage removes exactly the packages with that id and keeps the rest in order. */
  lemma DeletePackageKeepsOrder(packages: seq<Package>, id: string)
    ensures Seqs.IsSubsequence(RemovePackage(packages, id), packages)
    ensures forall p :: p in RemovePackage(packages, id) <==> p in packages && p.id != id
    ensures (forall p :: p in packages ==> p.id != id) ==> RemovePackage(packages, id) == packages
  {
    Seqs.FilterIsSubsequence(packages, PackageKept(id));
    if forall p :: p in packages ==> p.id != id {
      Seqs.FilterAll(packages, PackageKept(id));
    }
  }

  /** Toggling the same subject twice restores the selection's membership, and restores the
      form itself when the subject was not selected. */
  lemma ToggleTwiceRestores(form: PackageForm, subjectId: string)
    ensures forall y :: y in ToggleSelection(ToggleSelection(form, subjectId), subjectId).subjectIds <==> y in form.subjectIds
    ensures subjectId !in form.subjectIds ==> ToggleSelection(ToggleSelection(form, subjectId), subjectId) == form
  {
    Seqs.ToggleTwice(form.subjectIds, subjectId);
  }

  /** The picker lists a subset of the subjects in their original order, and an empty query
      lists all of them. */
  lemma FilteredSubjectsSpec(subjects: seq<Subject>, query: string)
    ensures Seqs.IsSubsequence(FilteredSubjects(subjects, query), subjects)
    ensures query == "" ==> FilteredSubjects(subjects, query) == subjects
  {
    Seqs.FilterIsSubsequence(subjects, Matcher(query));
    if query == "" {
      forall s | s in subjects ensures MatchesQuery(query, s) {
        Text.ContainsAt(Text.ToLower(s.name), Text.ToLower(query), 0);
      }
      Seqs.FilterAll(subjects, Matcher(query));
    }
  }

  /** When every filtered id is selected, select-all removes exactly the filtered ids, keeps
      the other selected ids in order, and leaves the filtered ones all unselected. */
  lemma SelectAllDeselects(filteredIds: seq<string>, selected: seq<string>)
    requires AllSelected(filteredIds, selected)
    ensures forall y :: y in SelectAll(filteredIds, selected) <==> y in selected && y !in filteredIds
    ensures Seqs.IsSubsequence(SelectAll(filteredIds, selected), selected)
    ensures |filteredIds| > 0 ==> !AllSelected(filteredIds, SelectAll(filteredIds, selected))
  {
    Seqs.RemoveEachSpec(selected, filteredIds);
    if |filteredIds| > 0 {
      assert filteredIds[0] !in SelectAll(filteredIds, selected);
    }
  }

  /** Otherwise select-all yields the union of the selection and the filtered ids, without
      duplicates, with the de-duplicated prior selection first (the prior selection itself,
      when it has no duplicates), and afterwards every filtered id is selected. */
  lemma SelectAllSelects(filteredIds: seq<string>, selected: seq<string>)
    requires !AllSelected(filteredIds, selected)
    ensures forall y :: y in SelectAll(filteredIds, selected) <==> y in selected || y in filteredIds
    ensures Seqs.NoDuplicates(SelectAll(filteredIds, selected))
    ensures Seqs.Dedup(selected) <= SelectAll(filteredIds, selected)
    ensures Seqs.NoDuplicates(selected) ==> selected <= SelectAll(filteredIds, selected)
    ensures AllSelected(filteredIds, SelectAll(filteredIds, selected))
  {
    Seqs.DedupFromPrefix(selected, filteredIds, {});
    if Seqs.NoDuplicates(selected) {
      Seqs.DedupFromUnseen(selected, {});
    }
  }

  /** On an empty filter select-all changes nothing, and the label reads "Select All". */
  lemma SelectAllEmptyFilter(selected: seq<string>)
    ensures SelectAll([], selected) == selected
    ensures !AreAllFilteredSelected([], selected)
  {
    Seqs.RemoveEachSpec(selected, []);
  }

  /** The label says "Deselect All" exactly when the filter is non-empty and a click would
      deselect. */
  lemma LabelMatchesAction(filtered: seq<Subject>, selected: seq<string>)
    ensures AreAllFilteredSelected(filtered, selected) <==> |filtered| > 0 && AllSelected(SubjectIds(filtered), selected)
  {
    var ids := SubjectIds(filtered);
    if |filtered| > 0 && AllSelected(ids, selected) {
      forall s | s in filtered ensures s.id in selected {
        var k :| 0 <= k < |filtered| && filtered[k] == s;
        assert ids[k] == s.id;
      }
    }
    if AreAllFilteredSelected(filtered, selected) {
      forall id | id in ids ensures id in selected {
        var k :| 0 <= k < |ids| && ids[k] == id;
        assert filtered[k] in filtered;
      }
    }
  }

  /** When every id names a subject with a non-empty name, the names are those of the first
      subject with each id, one per id and in order. */
  lemma {:induction false} KnownNamesAllKnown(subjects: seq<Subject>, ids: seq<string>)
    requires forall i :: 0 <= i < |ids| ==> LookupName(subjects, ids[i]).Some? && LookupName(subjects, ids[i]).value != ""
    ensures |KnownNames(subjects, ids)| == |ids|
    ensures forall i :: 0 <= i < |ids| ==> KnownNames(subjects, ids)[i] == LookupName(subjects, ids[i]).value
  {
    if |ids| > 0 {
      KnownNamesAllKnown(subjects, ids[1..]);
    }
  }

  /** Ids with no subject are dropped: a package whose ids are all unknown shows an empty name
      list. */
  lemma {:induction false} UnknownIdsDropped(subjects: seq<Subject>, ids: seq<string>)
    requires forall i :: 0 <= i < |ids| ==> forall s :: s in subjects ==> s.id != ids[i]
    ensures KnownNames(subjects, ids) == []
    ensures GetSubjectNames(subjects, ids) == ""
  {
    if |ids| > 0 {
      UnknownIdsDropped(subjects, ids[1..]);
    }
  }

  /** The names of a concatenation are the names of each part, in order. */
  lemma {:induction false} KnownNamesAppend(subjects: seq<Subject>, ids: seq<string>, more: seq<string>)
    ensures KnownNames(subjects, ids + more) == KnownNames(subjects, ids) + KnownNames(subjects, more)
  {
    if |ids| > 0 {
      assert (ids + more)[0] == ids[0];
      assert (ids + more)[1..] == ids[1..] + more;
      KnownNamesAppend(subjects, ids[1..], more);
    } else {
      assert ids + more == more;
    }
  }

  /** Adding an id to a package adds ", " and its name at the end when the id names a subject
      with a non-empty name (just the name when nothing was listed yet), and changes nothing
      otherwise. */
  lemma GetSubjectNamesAppend(subjects: seq<Subject>, ids: seq<string>, id: string)
    ensures var n := LookupName(subjects, id);
      n.Some? && n.value != "" && GetSubjectNames(subjects, ids) != "" ==>
        GetSubjectNames(subjects, ids + [id]) == GetSubjectNames(subjects, ids) + ", " + n.value
    ensures var n := LookupName(subjects, id);
      n.Some? && n.value != "" && GetSubjectNames(subjects, ids) == "" ==>
        GetSubjectNames(subjects, ids + [id]) == n.value
    ensures var n := LookupName(subjects, id);
      (n.None? || n.value == "") ==> GetSubjectNames(subjects, ids + [id]) == GetSubjectNames(subjects, ids)
  {
    KnownNamesAppend(subjects, ids, [id]);
    var n := LookupName(subjects, id);
    var names := KnownNames(subjects, ids);
    assert KnownNames(subjects, [id]) == (if n.Some? && n.value != "" then [n.value] else []) + KnownNames(subjects, []);
    if n.Some? && n.value != "" {
      assert KnownNames(subjects, ids + [id]) == names + [n.value];
      if GetSubjectNames(subjects, ids) != "" {
        Text.JoinAppend(names, n.value, ", ");
      } else {
        assert names + [n.value] == [n.value];
      }
    } else {
      assert KnownNames(subjects, ids + [id]) == names + [];
      assert names + [] == names;
    }
  }

  /** The seeded package lists both seeded subjects by name. */
  lemma InitialPackageNames()
    ensures GetSubjectNames(INITIAL_SUBJECTS, INITIAL_PACKAGES[0].subjectIds) == "Mathematics, Physics"
  {
    assert LookupName(INITIAL_SUBJECTS, "1") == Some("Mathematics");
    assert LookupName(INITIAL_SUBJECTS, "2") == Some("Physics");
    assert KnownNames(INITIAL_SUBJECTS, ["1", "2"]) == ["Mathematics", "Physics"];
  }
}
