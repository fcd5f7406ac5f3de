/** The deal-stage card of a candidate: which pipeline stages a role may pick, how far the
    progress bar is lit, and when the demo-status control is enabled. Everything here is a pure
    function of the session role and the candidate record. */
module DealStage {
  import opened Common
  import opened Types
  import Seqs

  /** The six pipeline stages in their canonical order. */
  const STAGES: seq<string> :=
    ["enquiry stage", "demo", "qualified demo", "class", "class qualified", "placement"]

  /** The four outcomes of the demo phase. */
  const DEMO_STATUSES: seq<string> :=
    ["Not yet started", "In Progress", "Completed", "Not interested"]

  /** The stage shown when the record has none. */
  const DEFAULT_STAGE: string := "enquiry stage"

  /** The demo status shown when the record has none. */
  const DEFAULT_DEMO_STATUS: string := "Not yet started"

  /** The stages a role may choose in the stage control. Roles other than the three restricted
      ones, including ADMIN, an unknown role and no role at all, see every stage. */
  function VisibleStages(role: SessionRole): (r: seq<string>)
    ensures |r| > 0
  {
    if role == Some(COUNSELLOR) then ["enquiry stage", "demo", "qualified demo"]
    else if role == Some(ACCOUNTS) then ["qualified demo", "class", "class qualified"]
    else if role == Some(HR) then ["class qualified", "placement"]
    else STAGES
  }

  /** `STAGES.indexOf(status || 'enquiry stage')`: the position of the status in the pipeline,
      or -1 when the stored value is not one of the six stages. */
  function GlobalStageIndex(status: string): (r: int)
    ensures -1 <= r < |STAGES|
  {
    Seqs.IndexOf(STAGES, if status == "" then DEFAULT_STAGE else status)
  }

  /** Segment `idx` of the progress bar is lit when `idx <= GlobalStageIndex`. */
  predicate IsSegmentActive(idx: int, status: string)
    ensures IsSegmentActive(idx, status) ==> idx < |STAGES|
    ensures 0 <= idx && status != "" && status !in STAGES ==> !IsSegmentActive(idx, status)
  {
    idx <= GlobalStageIndex(status)
  }

  /** `['ADMIN', 'COUNSELLOR'].includes(role || '') &&
      ['demo', 'qualified demo'].includes(status || '')`. */
  predicate IsDemoStatusEditable(role: SessionRole, status: string)
    ensures IsDemoStatusEditable(role, status) ==> role.Some? && 1 <= GlobalStageIndex(status) <= 2
  {
    var r := Pick(role, "");
    (r == ADMIN || r == COUNSELLOR) && (status == "demo" || status == "qualified demo")
  }

  /** What the card renders: one flag per pipeline segment, the stage control's value and
      options, and the demo-status control's value, options and whether it is disabled. */
  datatype DealStageView = DealStageView(
    segments: seq<bool>,
    stageValue: string,
    stageOptions: seq<string>,
    demoValue: string,
    demoOptions: seq<string>,
    demoDisabled: bool)

  /** The card for `role` viewing `e`. */
  function Render(role: SessionRole, e: Enquiry): (v: DealStageView)
    ensures |v.segments| == |STAGES| && v.stageValue != ""
    ensures forall i, j :: 0 <= i <= j < |v.segments| && v.segments[j] ==> v.segments[i]
    ensures v.stageOptions == VisibleStages(role) && v.demoOptions == DEMO_STATUSES
    ensures v.demoDisabled <==> !IsDemoStatusEditable(role, e.candidateStatus)
  {
    DealStageView(
      seq(|STAGES|, idx requires 0 <= idx < |STAGES| => IsSegmentActive(idx, e.candidateStatus)),
      if e.candidateStatus == "" then DEFAULT_STAGE else e.candidateStatus,
      VisibleStages(role),
      if e.demoStatus.None? || e.demoStatus.value == "" then DEFAULT_DEMO_STATUS else e.demoStatus.value,
      DEMO_STATUSES,
      !IsDemoStatusEditable(role, e.candidateStatus))
  }

  /** The arguments the card hands to its `onUpdateStatus` callback. */
  datatype StatusChange = StatusChange(stage: string, demoStatus: Option<string>)

  /** Picking a stage passes the new stage with the record's current demo status. */
  function StageSelected(e: Enquiry, chosen: string): StatusChange
  {
    StatusChange(chosen, e.demoStatus)
  }

  /** Picking a demo status passes the record's current stage with the new demo status. */
  function DemoStatusSelected(e: Enquiry, chosen: string): StatusChange
  {
    StatusChange(e.candidateStatus, Some(chosen))
  }

  /** Number of lit segments. */
  function CountTrue(s: seq<bool>): (n: nat)
    ensures n <= |s|
  {
    if |s| == 0 then 0 else (if s[0] then 1 else 0) + CountTrue(s[1..])
  }

  // ----- Properties -----

  /** No stage is listed twice. */
  lemma StagesDistinct()
    ensures Seqs.NoDuplicates(STAGES)
  {
  }

  /** The stage lists by role: the three restricted roles get fixed contiguous segments of the
      pipeline, every other role (ADMIN, unknown, none) all six. */
  lemma VisibleStagesByRole(role: SessionRole)
    ensures role == Some(COUNSELLOR) ==> VisibleStages(role) == STAGES[0..3]
    ensures role == Some(ACCOUNTS) ==> VisibleStages(role) == STAGES[2..5]
    ensures role == Some(HR) ==> VisibleStages(role) == STAGES[4..6]
    ensures role !in {Some(COUNSELLOR), Some(ACCOUNTS), Some(HR)} ==> VisibleStages(role) == STAGES
  {
  }

  /** A contiguous block of a sequence is a subsequence of it. */
  lemma {:induction false} SliceIsSubsequence(s: seq<string>, lo: nat, hi: nat)
    requires lo <= hi <= |s|
    ensures Seqs.IsSubsequence(s[lo..hi], s)
    decreases |s|
  {
    if lo < hi {
      if lo == 0 {
        SliceIsSubsequence(s[1..], 0, hi - 1);
        assert s[1..][0..hi - 1] == s[lo..hi][1..];
      } else {
        SliceIsSubsequence(s[1..], lo - 1, hi - 1);
        assert s[1..][lo - 1..hi - 1] == s[lo..hi];
        Seqs.SubsequenceOfTail(s[lo..hi], s);
      }
    }
  }

  /** For every role, the stage options are a non-empty, duplicate-free subsequence of the
      pipeline in canonical order. */
  lemma VisibleStagesInCanonicalOrder(role: SessionRole)
    ensures |VisibleStages(role)| > 0
    ensures Seqs.IsSubsequence(VisibleStages(role), STAGES)
    ensures Seqs.NoDuplicates(VisibleStages(role))
  {
    VisibleStagesByRole(role);
    if role == Some(COUNSELLOR) {
      SliceIsSubsequence(STAGES, 0, 3);
    } else if role == Some(ACCOUNTS) {
      SliceIsSubsequence(STAGES, 2, 5);
    } else if role == Some(HR) {
      SliceIsSubsequence(STAGES, 4, 6);
    } else {
      SliceIsSubsequence(STAGES, 0, 6);
      assert STAGES[0..6] == STAGES;
    }
  }

  /** Between them, the three restricted roles can reach every stage, and neighbouring segments
      hand over at a shared stage. */
  lemma RestrictedRolesCoverPipeline()
    ensures forall s :: s in STAGES ==>
      s in VisibleStages(Some(COUNSELLOR)) || s in VisibleStages(Some(ACCOUNTS)) || s in VisibleStages(Some(HR))
    ensures "qualified demo" in VisibleStages(Some(COUNSELLOR)) && "qualified demo" in VisibleStages(Some(ACCOUNTS))
    ensures "class qualified" in VisibleStages(Some(ACCOUNTS)) && "class qualified" in VisibleStages(Some(HR))
  {
  }

  /** The pipeline position: a missing status counts as the first stage, each canonical stage
      sits at its own index, and any other stored value gives -1. */
  lemma GlobalStageIndexSpec(status: string)
    ensures status == "" ==> GlobalStageIndex(status) == 0
    ensures forall i :: 0 <= i < |STAGES| ==> GlobalStageIndex(STAGES[i]) == i
    ensures status != "" && status !in STAGES ==> GlobalStageIndex(status) == -1
    ensures status in STAGES ==> STAGES[GlobalStageIndex(status)] == status
  {
    StagesDistinct();
  }

  /** A sequence lit exactly on positions `0..k` has `k + 1` lit entries. */
  lemma {:induction false} CountLitPrefix(s: seq<bool>, k: int)
    requires -1 <= k < |s|
    requires forall i :: 0 <= i < |s| ==> (s[i] <==> i <= k)
    ensures CountTrue(s) == k + 1
  {
    if |s| > 0 {
      CountLitPrefix(s[1..], if k >= 0 then k - 1 else -1);
    }
  }

  /** The progress bar always has one segment per stage, whatever the role; a canonical stage at
      position `i` lights exactly `i + 1` segments (the first ones), a missing stage lights one,
      and a status outside the pipeline lights none. */
  lemma SegmentsLit(role: SessionRole, e: Enquiry)
    ensures |Render(role, e).segments| == |STAGES|
    ensures forall other :: Render(other, e).segments == Render(role, e).segments
    ensures CountTrue(Render(role, e).segments) == GlobalStageIndex(e.candidateStatus) + 1
    ensures e.candidateStatus == "" ==> CountTrue(Render(role, e).segments) == 1
    ensures e.candidateStatus != "" && e.candidateStatus !in STAGES ==> CountTrue(Render(role, e).segments) == 0
  {
    GlobalStageIndexSpec(e.candidateStatus);
    CountLitPrefix(Render(role, e).segments, GlobalStageIndex(e.candidateStatus));
  }

  /** The demo-status control is enabled exactly for ADMIN and COUNSELLOR on a record in the
      demo or qualified-demo stage; every other role, an absent role, and every other stage
      (including an absent one) keep it disabled. */
  lemma DemoStatusEditableIff(role: SessionRole, status: string)
    ensures IsDemoStatusEditable(role, status) <==>
      (role == Some(ADMIN) || role == Some(COUNSELLOR)) && (status == STAGES[1] || status == STAGES[2])
    ensures role.None? || status == "" ==> !IsDemoStatusEditable(role, status)
  {
  }

  /** Whoever may edit the demo status may also pick the stage the record is in. */
  lemma DemoEditableOnlyOnVisibleStage(role: SessionRole, status: string)
    requires IsDemoStatusEditable(role, status)
    ensures status in VisibleStages(role)
  {
    if role == Some(COUNSELLOR) {
      assert VisibleStages(role)[1] == "demo" && VisibleStages(role)[2] == "qualified demo";
    } else {
      assert VisibleStages(role) == STAGES;
      assert STAGES[1] == "demo" && STAGES[2] == "qualified demo";
    }
  }

  /** The stage select's value is the stored stage even when the role could not pick it, so the
      stored value is never coerced (what a browser displays for a value with no matching
      option is outside the model); the demo select's value is the stored status or its
      default, and it always offers exactly the four demo statuses. */
  lemma ControlsShowStoredValues(role: SessionRole, e: Enquiry)
    ensures e.candidateStatus != "" ==> Render(role, e).stageValue == e.candidateStatus
    ensures e.candidateStatus == "" ==> Render(role, e).stageValue == STAGES[0]
    ensures e.demoStatus.Some? && e.demoStatus.value != "" ==> Render(role, e).demoValue == e.demoStatus.value
    ensures e.demoStatus.None? ==> Render(role, e).demoValue == DEMO_STATUSES[0]
    ensures Render(role, e).demoOptions == DEMO_STATUSES
    ensures Render(role, e).demoDisabled <==> !IsDemoStatusEditable(role, e.candidateStatus)
  {
  }
}
