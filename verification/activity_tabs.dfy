/** The activity panel of a candidate: the billing sub-ledger (role gate, balance, creation and
    per-field edits) and the call/notes log (fetch and ordering, the note form, save and edit). */
module ActivityTabs {
  import opened Common
  import opened Types
  import Seqs

  // ----- Billing -----

  /** Billing is interactive and unobscured only for ADMIN and ACCOUNTS. */
  predicate IsBillingAuthorized(role: SessionRole)
    ensures IsBillingAuthorized(role) ==> role.Some? && role.value != HR && role.value != COUNSELLOR
  {
    role == Some(ADMIN) || role == Some(ACCOUNTS)
  }

  /** `Math.max(0, total - paid - discount)`: what is still owed, never negative. */
  function Balance(b: BillingDetails): (r: int)
    ensures r >= 0
    ensures r >= b.total - b.paid - b.discount
    ensures r == 0 || r == b.total - b.paid - b.discount
  {
    var owed := b.total - b.paid - b.discount;
    if owed > 0 then owed else 0
  }

  /** "Create Billing": the record a fresh ledger starts from. */
  const NewBilling: BillingDetails := BillingDetails(0, 0, 0)

  datatype BillingField = Total | Discount | Paid

  function BillingGet(b: BillingDetails, f: BillingField): int
  {
    match f
    case Total => b.total
    case Discount => b.discount
    case Paid => b.paid
  }

  /** `{ ...billingDetails, [f]: v }` from the three amount inputs. */
  function EditBilling(b: BillingDetails, f: BillingField, v: int): (r: BillingDetails)
    ensures BillingGet(r, f) == v
    ensures forall g :: g != f ==> BillingGet(r, g) == BillingGet(b, g)
  {
    match f
    case Total => b.(total := v)
    case Discount => b.(discount := v)
    case Paid => b.(paid := v)
  }

  /** Only ADMIN and ACCOUNTS pass the gate; no role, and every other role, fail it. */
  lemma BillingAuthorizedIff(role: SessionRole)
    ensures IsBillingAuthorized(role) <==> role.Some? && (role.value == ADMIN || role.value == ACCOUNTS)
    ensures !IsBillingAuthorized(None) && !IsBillingAuthorized(Some(HR)) && !IsBillingAuthorized(Some(COUNSELLOR))
  {
  }

  /** The balance is the amount owed whenever that is not negative, and zero otherwise; a fresh
      ledger owes nothing. */
  lemma BalanceSpec(b: BillingDetails)
    ensures b.total - b.paid - b.discount >= 0 ==> Balance(b) == b.total - b.paid - b.discount
    ensures b.total - b.paid - b.discount < 0 ==> Balance(b) == 0
    ensures Balance(NewBilling) == 0
    ensures Balance(BillingDetails(10000, 3000, 500)) == 6500
    ensures Balance(BillingDetails(1000, 900, 500)) == 0
  {
  }

  /** Paying more or granting more discount never raises the balance; raising the total never
      lowers it. */
  lemma BalanceMonotone(b: BillingDetails, v: int)
    ensures v >= b.paid ==> Balance(EditBilling(b, Paid, v)) <= Balance(b)
    ensures v >= b.discount ==> Balance(EditBilling(b, Discount, v)) <= Balance(b)
    ensures v >= b.total ==> Balance(EditBilling(b, Total, v)) >= Balance(b)
  {
  }

  // ----- Logs -----

  /** One log item as the server returns it; `userRole` is `item.User?.role` and `createdAt` is
      the creation time as a number. */
  datatype RawLog = RawLog(id: int, title: string, description: string, userRole: Option<string>, createdAt: int)

  datatype Log = Log(id: int, title: string, description: string, author: string, timestamp: int)

  /** `item.User?.role || 'User'`. */
  function Author(userRole: Option<string>): (a: string)
    ensures a != ""
    ensures userRole.Some? && userRole.value != "" ==> a == userRole.value
  {
    if userRole.Some? && userRole.value != "" then userRole.value else "User"
  }

  function ToLog(item: RawLog): (l: Log)
    ensures l.id == item.id && l.title == item.title && l.description == item.description
    ensures l.author != "" && l.timestamp == item.createdAt
  {
    Log(item.id, item.title, item.description, Author(item.userRole), item.createdAt)
  }

  predicate NewestFirst(logs: seq<Log>)
  {
    forall i, j :: 0 <= i < j < |logs| ==> logs[i].timestamp >= logs[j].timestamp
  }

  /** Insert `x` into a newest-first list, ahead of every entry that is not newer than it. */
  function InsertNewestFirst(x: Log, logs: seq<Log>): (r: seq<Log>)
    requires NewestFirst(logs)
    ensures NewestFirst(r)
    ensures multiset(r) == multiset(logs) + multiset{x}
  {
    if |logs| == 0 || x.timestamp >= logs[0].timestamp then
      ConsNewestFirst(x, logs);
      [x] + logs
    else
      var rest := InsertNewestFirst(x, logs[1..]);
      assert logs == [logs[0]] + logs[1..];
      NotNewerThanHead(logs[0], x, logs[1..], rest);
      ConsNewestFirst(logs[0], rest);
      [logs[0]] + rest
  }

  /** A newest-first list stays so behind a head that no entry is newer than. */
  lemma ConsNewestFirst(h: Log, rest: seq<Log>)
    requires NewestFirst(rest)
    requires forall k :: 0 <= k < |rest| ==> rest[k].timestamp <= h.timestamp
    ensures NewestFirst([h] + rest)
  {
  }

  /** Every entry of `rest`, made of `x` and the tail of a newest-first list headed by `h`, is
      no newer than `h` when `x` is not. */
  lemma NotNewerThanHead(h: Log, x: Log, tail: seq<Log>, rest: seq<Log>)
    requires NewestFirst([h] + tail)
    requires x.timestamp < h.timestamp
    requires multiset(rest) == multiset(tail) + multiset{x}
    ensures forall k :: 0 <= k < |rest| ==> rest[k].timestamp <= h.timestamp
  {
    forall k | 0 <= k < |rest| ensures rest[k].timestamp <= h.timestamp {
      assert rest[k] in multiset(rest);
      if rest[k] != x {
        assert rest[k] in multiset(tail);
        assert rest[k] in tail;
        var j :| 0 <= j < |tail| && tail[j] == rest[k];
        assert ([h] + tail)[j + 1] == rest[k];
        assert ([h] + tail)[0] == h;
      }
    }
  }

  /** `.sort((a, b) => b.timestamp - a.timestamp)`: newest first, earlier entries first among
      equal times. */
  function SortNewestFirst(logs: seq<Log>): (r: seq<Log>)
    ensures NewestFirst(r)
    ensures multiset(r) == multiset(logs)
  {
    if |logs| == 0 then []
    else
      assert logs == [logs[0]] + logs[1..];
      InsertNewestFirst(logs[0], SortNewestFirst(logs[1..]))
  }

  /** The list `fetchLogs` stores: every item converted, then sorted newest first. */
  function FetchedLogs(response: seq<RawLog>): seq<Log>
  {
    SortNewestFirst(ToLogs(response))
  }

  /** `response.map(...)`: one log per item, in order. */
  function ToLogs(response: seq<RawLog>): (r: seq<Log>)
    ensures |r| == |response|
    ensures forall i :: 0 <= i < |response| ==> r[i] == ToLog(response[i])
  {
    seq(|response|, i requires 0 <= i < |response| => ToLog(response[i]))
  }

  /** Lists with the same multiset have the same length and the same elements. */
  lemma SameMultisetSameElements(a: seq<Log>, b: seq<Log>)
    requires multiset(a) == multiset(b)
    ensures |a| == |b|
    ensures forall l :: l in a <==> l in b
  {
    assert |multiset(a)| == |multiset(b)|;
    forall l ensures l in a <==> l in b {
      assert l in a <==> l in multiset(a);
      assert l in b <==> l in multiset(b);
    }
  }

  /** Fetched logs are newest first, hold exactly the converted items, and carry an author that
      is the poster's role or 'User'. */
  lemma FetchedLogsSpec(response: seq<RawLog>)
    ensures NewestFirst(FetchedLogs(response))
    ensures |FetchedLogs(response)| == |response|
    ensures forall i :: 0 <= i < |response| ==> ToLog(response[i]) in FetchedLogs(response)
    ensures forall l :: l in FetchedLogs(response) ==> l.author != ""
  {
    var converted := ToLogs(response);
    SameMultisetSameElements(FetchedLogs(response), converted);
    forall i | 0 <= i < |response| ensures ToLog(response[i]) in converted {
      assert converted[i] == ToLog(response[i]);
    }
  }

  /** The note form's title and description. */
  datatype LogDraft = LogDraft(title: string, description: string)

  const EmptyDraft: LogDraft := LogDraft("", "")

  /** `if (!newLog.title || !newLog.description) return;` */
  predicate SaveRejected(d: LogDraft)
    ensures d == EmptyDraft ==> SaveRejected(d)
    ensures d.title != "" && d.description != "" ==> !SaveRejected(d)
  {
    !(d.title != "" && d.description != "")
  }

  /** `disabled={!newLog.title || !newLog.description}` on the save button. */
  predicate SaveButtonDisabled(d: LogDraft)
    ensures SaveButtonDisabled(d) <==> SaveRejected(d)
  {
    d.title == "" || d.description == ""
  }

  /** The button is disabled exactly when a click would be ignored: a note needs both a title
      and a description. */
  lemma SaveGuardMatchesButton(d: LogDraft)
    ensures SaveRejected(d) <==> SaveButtonDisabled(d)
    ensures !SaveRejected(d) <==> d.title != "" && d.description != ""
  {
  }

  /** `PUT /api/logs/{id}` or `POST /api/logs`. */
  datatype LogRequest =
    | UpdateLog(logId: int, title: string, description: string)
    | CreateLog(enquiryId: int, title: string, description: string)

  /** `if (editingLogId)`: an id of 0 is falsy, so it creates a new log instead of editing. */
  function SaveRequest(enquiryId: int, editingLogId: Option<int>, d: LogDraft): (r: LogRequest)
    ensures r.UpdateLog? <==> editingLogId.Some? && editingLogId.value != 0
    ensures r.UpdateLog? ==> r.logId == editingLogId.value
    ensures r.CreateLog? ==> r.enquiryId == enquiryId
    ensures r.title == d.title && r.description == d.description
  {
    if editingLogId.Some? && editingLogId.value != 0 then UpdateLog(editingLogId.value, d.title, d.description)
    else CreateLog(enquiryId, d.title, d.description)
  }

  /** The notes tab's state. */
  class NotesPanel {
    var logs: seq<Log>
    var draft: LogDraft
    var editingLogId: Option<int>
    var isModalOpen: bool

    constructor ()
      ensures logs == [] && draft == EmptyDraft && editingLogId.None? && !isModalOpen
    {
      logs := [];
      draft := EmptyDraft;
      editingLogId := None;
      isModalOpen := false;
    }

    /** fetchLogs: a failed fetch (or a reply that is not a list) keeps the current logs. */
    method FetchLogs(response: Option<seq<RawLog>>)
      modifies this
      ensures logs == (if response.Some? then FetchedLogs(response.value) else old(logs))
      ensures draft == old(draft) && editingLogId == old(editingLogId) && isModalOpen == old(isModalOpen)
    {
      if response.Some? {
        logs := FetchedLogs(response.value);
      }
    }

    /** "Log a Call / Add Note": an empty form in create mode. */
    method OpenNewLog()
      modifies this
      ensures draft == EmptyDraft && editingLogId.None? && isModalOpen
      ensures logs == old(logs)
    {
      editingLogId := None;
      draft := EmptyDraft;
      isModalOpen := true;
    }

    /** handleEditClick(log): load the log into the form in edit mode. */
    method HandleEditClick(log: Log)
      modifies this
      ensures draft == LogDraft(log.title, log.description)
      ensures editingLogId == Some(log.id) && isModalOpen
      ensures logs == old(logs)
    {
      draft := LogDraft(log.title, log.description);
      editingLogId := Some(log.id);
      isModalOpen := true;
    }

    /** handleSaveLog: `write` is the outcome of the save request and `refetch` that of the
        following fetchLogs. An incomplete form sends nothing and changes nothing; a failed write
        changes nothing; a successful one refreshes the logs and resets the form. */
    method HandleSaveLog(enquiryId: int, write: Outcome, refetch: Option<seq<RawLog>>)
      returns (sent: Option<LogRequest>)
      modifies this
      ensures SaveRejected(old(draft)) ==> sent.None?
      ensures !SaveRejected(old(draft)) ==> sent == Some(SaveRequest(enquiryId, old(editingLogId), old(draft)))
      ensures SaveRejected(old(draft)) || write.Failed? ==>
        logs == old(logs) && draft == old(draft) && editingLogId == old(editingLogId) && isModalOpen == old(isModalOpen)
      ensures !SaveRejected(old(draft)) && write.Ok? ==>
        && logs == (if refetch.Some? then FetchedLogs(refetch.value) else old(logs))
        && draft == EmptyDraft && editingLogId.None? && !isModalOpen
    {
      if SaveRejected(draft) {
        return None;
      }
      sent := Some(SaveRequest(enquiryId, editingLogId, draft));
      if write.Failed? {
        return;
      }
      FetchLogs(refetch);
      draft := EmptyDraft;
      editingLogId := None;
      isModalOpen := false;
    }
  }

  /** Editing a log and saving it unchanged sends an update of that same log with its own
      title and description, unless its id is 0. */
  lemma EditThenSaveUpdatesThatLog(enquiryId: int, log: Log)
    requires log.title != "" && log.description != ""
    ensures log.id != 0 ==>
      SaveRequest(enquiryId, Some(log.id), LogDraft(log.title, log.description)) == UpdateLog(log.id, log.title, log.description)
    ensures log.id == 0 ==>
      SaveRequest(enquiryId, Some(log.id), LogDraft(log.title, log.description)) == CreateLog(enquiryId, log.title, log.description)
  {
  }
}
