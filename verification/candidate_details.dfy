/** The candidate page's two update handlers: a generic field update applied optimistically and
    rolled back to the whole prior snapshot when the remote write fails, and a stage update that
    sets only `candidateStatus`, reverts only that field on failure, and then may issue a
    demo-status update through the generic handler.

    Each handler reads `enquiry` from the render that created it (the `snapshot` parameter),
    while its `setEnquiry(prev => ...)` calls act on the page's current state. The two are
    distinct parameters here so that the effect of a stale snapshot stays visible. */
module CandidateDetails {
  import opened Common
  import opened Types
  import DealStage

  /** A remote write: `PUT /api/enquiries/{id}` with a partial record, or
      `POST /api/enquiries/change-status`. */
  datatype Request =
    | PutEnquiry(enquiryId: int, body: EnquiryPatch)
    | ChangeStatus(enquiryId: int, newStatus: string)

  /** A request together with the record on screen while it was in flight. */
  datatype Sent = Sent(request: Request, shown: Option<Enquiry>)

  /** The result of one handler: the page's record afterwards, the requests issued in order, and
      the failure notices raised. */
  datatype Step = Step(enquiry: Option<Enquiry>, sent: seq<Sent>, notices: seq<string>)

  const UPDATE_FAILED: string := "Failed to update. Please try again."
  const STATUS_FAILED: string := "Failed to update status."

  /** `{ demoStatus }`: the patch the stage handler passes to the generic handler. */
  function DemoPatch(demoStatus: string): EnquiryPatch
  {
    EmptyPatch.(demoStatus := Some(Some(demoStatus)))
  }

  /** `prev ? { ...prev, candidateStatus: s } : null`. */
  function WithStatus(current: Option<Enquiry>, s: string): Option<Enquiry>
  {
    match current
    case None => None
    case Some(e) => Some(e.(candidateStatus := s))
  }

  /** handleUpdateCandidate, run from a render whose `enquiry` was `snapshot`, while the page
      holds `current`, with `put` the outcome of the remote write. */
  function UpdateCandidate(current: Option<Enquiry>, snapshot: Option<Enquiry>,
                           fields: EnquiryPatch, put: Outcome): (r: Step)
    ensures snapshot.None? ==> r == Step(current, [], [])
    ensures |r.sent| <= 1 && (snapshot.Some? ==> |r.sent| == 1 && r.enquiry.Some?)
    ensures r.notices != [] <==> snapshot.Some? && put.Failed?
    ensures r.notices == [] || r.notices == [UPDATE_FAILED]
    ensures snapshot.Some? ==> forall i :: 0 <= i < |r.sent| ==> r.sent[i].request.enquiryId == snapshot.value.id
  {
    match snapshot
    case None => Step(current, [], [])
    case Some(s) =>
      var optimistic := Apply(s, fields);
      var sent := [Sent(PutEnquiry(s.id, fields), Some(optimistic))];
      if put.Ok? then Step(Some(optimistic), sent, [])
      else Step(Some(s), sent, [UPDATE_FAILED])
  }

  /** The demo-status part of handleStageUpdate: a follow-up generic update is issued only for a
      non-empty demo status that differs from the snapshot's. */
  predicate WantsDemoUpdate(snapshot: Enquiry, demoStatus: Option<string>)
    ensures WantsDemoUpdate(snapshot, demoStatus) ==> demoStatus.Some? && demoStatus != snapshot.demoStatus
    ensures demoStatus == snapshot.demoStatus ==> !WantsDemoUpdate(snapshot, demoStatus)
  {
    demoStatus.Some? && demoStatus.value != "" && demoStatus != snapshot.demoStatus
  }

  /** handleStageUpdate(stage, demoStatus), run from a render whose `enquiry` was `snapshot`,
      while the page holds `current`; `status` and `put` are the outcomes of the change-status
      write and of the follow-up generic write. */
  function StageUpdate(current: Option<Enquiry>, snapshot: Option<Enquiry>, stage: string,
                       demoStatus: Option<string>, status: Outcome, put: Outcome): (r: Step)
    ensures snapshot.None? ==> r == Step(current, [], [])
    ensures |r.sent| <= 2
    ensures r.notices == [] || r.notices == [STATUS_FAILED] || r.notices == [UPDATE_FAILED]
    ensures snapshot.Some? ==> forall i :: 0 <= i < |r.sent| ==> r.sent[i].request.enquiryId == snapshot.value.id
  {
    match snapshot
    case None => Step(current, [], [])
    case Some(s) =>
      if stage != s.candidateStatus && status.Failed? then
        var optimistic := WithStatus(current, stage);
        Step(WithStatus(optimistic, s.candidateStatus),
             [Sent(ChangeStatus(s.id, stage), optimistic)], [STATUS_FAILED])
      else
        var afterStage := if stage != s.candidateStatus then WithStatus(current, stage) else current;
        var statusSent := if stage != s.candidateStatus then [Sent(ChangeStatus(s.id, stage), afterStage)] else [];
        if WantsDemoUpdate(s, demoStatus) then
          var demo := UpdateCandidate(afterStage, snapshot, DemoPatch(demoStatus.value), put);
          Step(demo.enquiry, statusSent + demo.sent, demo.notices)
        else
          Step(afterStage, statusSent, [])
  }

  /** The page's state: the loaded record (absent until loaded) and the notices shown so far. */
  class CandidateDetailsPage {
    var enquiry: Option<Enquiry>
    var notices: seq<string>

    constructor (initial: Option<Enquiry>)
      ensures enquiry == initial && notices == []
    {
      enquiry := initial;
      notices := [];
    }

    /** handleUpdateCandidate(updatedFields), issued from the render that saw `snapshot`. */
    method HandleUpdateCandidate(snapshot: Option<Enquiry>, updatedFields: EnquiryPatch, put: Outcome)
      returns (sent: seq<Sent>)
      modifies this
      ensures var r := UpdateCandidate(old(enquiry), snapshot, updatedFields, put);
        enquiry == r.enquiry && sent == r.sent && notices == old(notices) + r.notices
    {
      if snapshot.None? {
        return [];
      }
      var oldData := snapshot.value;
      var newData := Apply(snapshot.value, updatedFields);
      enquiry := Some(newData);
      sent := [Sent(PutEnquiry(snapshot.value.id, updatedFields), enquiry)];
      if put.Failed? {
        enquiry := Some(oldData);
        notices := notices + [UPDATE_FAILED];
      }
    }

    /** handleStageUpdate(stage, demoStatus), issued from the render that saw `snapshot`. */
    method HandleStageUpdate(snapshot: Option<Enquiry>, stage: string, demoStatus: Option<string>,
                             status: Outcome, put: Outcome)
      returns (sent: seq<Sent>)
      modifies this
      ensures var r := StageUpdate(old(enquiry), snapshot, stage, demoStatus, status, put);
        enquiry == r.enquiry && sent == r.sent && notices == old(notices) + r.notices
    {
      sent := [];
      if snapshot.None? {
        return;
      }
      if stage != snapshot.value.candidateStatus {
        var oldStatus := snapshot.value.candidateStatus;
        enquiry := WithStatus(enquiry, stage);
        sent := sent + [Sent(ChangeStatus(snapshot.value.id, stage), enquiry)];
        if status.Failed? {
          enquiry := WithStatus(enquiry, oldStatus);
          notices := notices + [STATUS_FAILED];
          return;
        }
      }
      if WantsDemoUpdate(snapshot.value, demoStatus) {
        var more := HandleUpdateCandidate(snapshot, DemoPatch(demoStatus.value), put);
        sent := sent + more;
      }
    }
  }

  function Requests(sent: seq<Sent>): seq<Request>
  {
    seq(|sent|, i requires 0 <= i < |sent| => sent[i].request)
  }

  predicate IssuesPut(r: Step)
  {
    exists i :: 0 <= i < |r.sent| && r.sent[i].request.PutEnquiry?
  }

  predicate IssuesStatusWrite(r: Step)
  {
    exists i :: 0 <= i < |r.sent| && r.sent[i].request.ChangeStatus?
  }

  // ----- Generic update -----

  /** Without a loaded record the generic update does nothing. */
  lemma UpdateWithoutRecordIsNoOp(current: Option<Enquiry>, fields: EnquiryPatch, put: Outcome)
    ensures UpdateCandidate(current, None, fields, put) == Step(current, [], [])
  {
  }

  /** While the write is in flight the page shows the snapshot overlaid with the updated fields:
      named fields take the new values, every other field keeps the snapshot's. On success that
      record stays; on failure the whole snapshot comes back and one notice is raised. */
  lemma UpdateOptimisticThenRollback(current: Option<Enquiry>, s: Enquiry, fields: EnquiryPatch, put: Outcome)
    ensures var r := UpdateCandidate(current, Some(s), fields, put);
      && Requests(r.sent) == [PutEnquiry(s.id, fields)]
      && r.sent[0].shown.Some?
      && (forall f :: PatchGet(fields, f).Some? ==> Get(r.sent[0].shown.value, f) == PatchGet(fields, f).value)
      && (forall f :: PatchGet(fields, f).None? ==> Get(r.sent[0].shown.value, f) == Get(s, f))
      && (put.Ok? ==> r.enquiry == r.sent[0].shown && r.notices == [])
      && (put.Failed? ==> r.enquiry == Some(s) && r.notices == [UPDATE_FAILED])
  {
  }

  /** An update from the current render that names no fields leaves the record as it was,
      whatever the write's outcome. */
  lemma EmptyUpdateKeepsRecord(e: Enquiry, put: Outcome)
    ensures UpdateCandidate(Some(e), Some(e), EmptyPatch, put).enquiry == Some(e)
  {
    ApplyEmpty(e);
  }

  // ----- Stage update -----

  /** Choosing the stored stage issues no change-status write and leaves the stage alone; only
      the demo-status follow-up may run. */
  lemma SameStageNoStatusWrite(e: Enquiry, stage: string, demoStatus: Option<string>, status: Outcome, put: Outcome)
    requires stage == e.candidateStatus
    ensures var r := StageUpdate(Some(e), Some(e), stage, demoStatus, status, put);
      && !IssuesStatusWrite(r)
      && r.enquiry.Some? && r.enquiry.value.candidateStatus == e.candidateStatus
      && (!WantsDemoUpdate(e, demoStatus) ==> r.enquiry == Some(e) && r.sent == [])
  {
  }

  /** A different stage is shown before the write resolves. If the write fails, only
      `candidateStatus` goes back to the snapshot's stage, every other field keeps its current
      value, a notice is raised, and no demo-status write follows. */
  lemma StageFailureRevertsOnlyStage(current: Enquiry, s: Enquiry, stage: string,
                                     demoStatus: Option<string>, message: string, put: Outcome)
    requires stage != s.candidateStatus
    ensures var r := StageUpdate(Some(current), Some(s), stage, demoStatus, Failed(message), put);
      && Requests(r.sent) == [ChangeStatus(s.id, stage)]
      && r.sent[0].shown == Some(current.(candidateStatus := stage))
      && r.enquiry == Some(current.(candidateStatus := s.candidateStatus))
      && !IssuesPut(r)
      && r.notices == [STATUS_FAILED]
  {
  }

  /** A successful stage change with no demo-status follow-up keeps the new stage and changes
      nothing else. */
  lemma StageSuccessKeepsNewStage(current: Enquiry, s: Enquiry, stage: string,
                                  demoStatus: Option<string>, put: Outcome)
    requires stage != s.candidateStatus
    requires !WantsDemoUpdate(s, demoStatus)
    ensures var r := StageUpdate(Some(current), Some(s), stage, demoStatus, Ok, put);
      && r.enquiry == Some(current.(candidateStatus := stage))
      && Requests(r.sent) == [ChangeStatus(s.id, stage)]
      && r.notices == []
  {
  }

  /** The demo-status write is issued exactly when a record is loaded, the stage part did not
      fail, and the given demo status is non-empty and differs from the stored one; it is then
      the last request and carries only `demoStatus`. */
  lemma DemoWriteOnlyAfterStagePath(current: Option<Enquiry>, snapshot: Option<Enquiry>, stage: string,
                                    demoStatus: Option<string>, status: Outcome, put: Outcome)
    ensures var r := StageUpdate(current, snapshot, stage, demoStatus, status, put);
      IssuesPut(r) <==>
        && snapshot.Some?
        && (stage == snapshot.value.candidateStatus || status.Ok?)
        && WantsDemoUpdate(snapshot.value, demoStatus)
    ensures var r := StageUpdate(current, snapshot, stage, demoStatus, status, put);
      IssuesPut(r) ==> r.sent[|r.sent| - 1].request == PutEnquiry(snapshot.value.id, DemoPatch(demoStatus.value))
  {
    var r := StageUpdate(current, snapshot, stage, demoStatus, status, put);
    if snapshot.Some? {
      var s := snapshot.value;
      if !(stage != s.candidateStatus && status.Failed?) && WantsDemoUpdate(s, demoStatus) {
        var statusSent := if stage != s.candidateStatus then 1 else 0;
        assert r.sent[statusSent].request.PutEnquiry?;
      }
    }
  }

  /** The stale snapshot: after a successful stage change the demo-status follow-up rebuilds the
      record from the pre-change snapshot, so the page shows the OLD stage again (the server
      keeps the new one), whether or not the demo-status write succeeds. */
  lemma StaleSnapshotUndoesStageLocally(e: Enquiry, stage: string, demoStatus: Option<string>, put: Outcome)
    requires stage != e.candidateStatus
    requires WantsDemoUpdate(e, demoStatus)
    ensures var r := StageUpdate(Some(e), Some(e), stage, demoStatus, Ok, put);
      && Requests(r.sent) == [ChangeStatus(e.id, stage), PutEnquiry(e.id, DemoPatch(demoStatus.value))]
      && r.enquiry.Some?
      && r.enquiry.value.candidateStatus == e.candidateStatus
      && r.enquiry.value.candidateStatus != stage
  {
  }

  /** From the deal-stage card the stale-snapshot case cannot arise: picking a stage carries the
      stored demo status (so no demo-status write), and picking a demo status carries the stored
      stage (so no change-status write). */
  lemma CardEventsTouchOneField(e: Enquiry, chosen: string, status: Outcome, put: Outcome)
    ensures var c := DealStage.StageSelected(e, chosen);
      !IssuesPut(StageUpdate(Some(e), Some(e), c.stage, c.demoStatus, status, put))
    ensures var c := DealStage.DemoStatusSelected(e, chosen);
      !IssuesStatusWrite(StageUpdate(Some(e), Some(e), c.stage, c.demoStatus, status, put))
  {
    DemoWriteOnlyAfterStagePath(Some(e), Some(e), chosen, e.demoStatus, status, put);
  }
}
