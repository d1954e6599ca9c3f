/**
 * The home screen: the repair-request form and its submit handler, the count of
 * requests, and the three newest announcements. Database calls are inputs.
 */
module Home {
  import opened Wrappers
  import Seqs
  import Announcements
  import RequestCard

  /** The priorities the form's dropdown offers. */
  const PriorityLevels: seq<string> := ["High", "Medium", "Low"]

  /** The repair-request form: title, description, selected type, priority and picked image. */
  datatype RequestForm = RequestForm(title: string, description: string, selected: string, priority: string, image: Option<string>)

  /**
   * The stored repair request. `image` is the field the screen writes under
   * the key `import`; it is null when no image was picked.
   */
  datatype RepairRequest = RepairRequest(
    requestId: nat, title: string, description: string, requestType: string,
    priority: string, status: string, image: Option<string>, createdAt: int)

  /** The check before any call: title, description and type are required; the priority is not checked. */
  predicate FormComplete(f: RequestForm)
    ensures f.priority != "" ==> FormComplete(f) == FormComplete(f.(priority := ""))
    decreases |f.priority|
  {
    f.title != "" && f.description != "" && f.selected != ""
  }

  /** `image || null`: an empty uri counts as no image. */
  function ImageOrNull(image: Option<string>): (r: Option<string>)
    ensures r.Some? <==> image.Some? && image.value != ""
    ensures r.Some? ==> r == image
  {
    if image.Some? && image.value != "" then image else None
  }

  /**
   * The request `handleRepairRequestSubmit` writes, given how many requests
   * were fetched: none for an incomplete form; otherwise numbered one past the
   * count, with status "Pending" and the form's fields.
   */
  function Submission(f: RequestForm, fetchedCount: nat, now: int): (r: Option<RepairRequest>)
    ensures r.None? <==> !FormComplete(f)
    ensures r.Some? ==> r.value.requestId == fetchedCount + 1 && r.value.status == "Pending"
    ensures r.Some? ==> && r.value.title == f.title && r.value.description == f.description
                        && r.value.requestType == f.selected && r.value.priority == f.priority
                        && r.value.image == ImageOrNull(f.image) && r.value.createdAt == now
  {
    if !FormComplete(f) then None
    else Some(RepairRequest(fetchedCount + 1, f.title, f.description, f.selected, f.priority,
                            "Pending", ImageOrNull(f.image), now))
  }

  /** An empty priority does not stop a submission: only the three other fields decide. */
  lemma PriorityNotValidated(f: RequestForm, fetchedCount: nat, now: int)
    ensures Submission(f, fetchedCount, now).Some? == Submission(f.(priority := ""), fetchedCount, now).Some?
    ensures FormComplete(f) ==> Submission(f.(priority := ""), fetchedCount, now).value.priority == ""
  {
  }

  /** The request numbers 1..n of the stored requests, in order. */
  predicate NumberedInOrder(requests: seq<RepairRequest>)
  {
    forall i :: 0 <= i < |requests| ==> requests[i].requestId == i + 1
  }

  /**
   * While the stored requests are numbered 1..n, a submission is numbered n+1:
   * no stored request has its number, and the list stays numbered in order.
   */
  lemma SubmissionNumberFresh(requests: seq<RepairRequest>, f: RequestForm, now: int)
    requires NumberedInOrder(requests) && FormComplete(f)
    ensures forall i :: 0 <= i < |requests| ==> requests[i].requestId != Submission(f, |requests|, now).value.requestId
    ensures NumberedInOrder(requests + [Submission(f, |requests|, now).value])
  {
  }

  /** Every priority the form offers is shown in its own colour, none in the default black. */
  lemma OfferedPrioritiesColoured()
    ensures forall i :: 0 <= i < |PriorityLevels| ==> RequestCard.PriorityColor(PriorityLevels[i]) != RequestCard.DefaultColor
    ensures forall i, j :: 0 <= i < j < |PriorityLevels| ==>
      RequestCard.PriorityColor(PriorityLevels[i]) != RequestCard.PriorityColor(PriorityLevels[j])
  {
  }

  // ---- the newest announcements ---------------------------------------------

  /** `announcements.slice(0, 3)`. */
  function FirstThree(s: seq<Announcements.Announcement>): (r: seq<Announcements.Announcement>)
    ensures |r| == if |s| < 3 then |s| else 3
    ensures r == s[..|r|]
  {
    if |s| < 3 then s else s[..3]
  }

  /**
   * Of a sorted fetch, the three shown are at least as new as every one left
   * out, and are themselves newest first.
   */
  lemma ShownAreNewest(fetched: seq<Announcements.Announcement>)
    ensures var s := Seqs.Sort(fetched, Announcements.Newer);
      var shown := FirstThree(s);
      && Announcements.NewestFirst(shown)
      && forall i, j :: 0 <= i < |shown| <= j < |s| ==> s[j].createdAt <= shown[i].createdAt
  {
    Announcements.SortIsNewestFirst(fetched);
  }

  // ---- the screen ------------------------------------------------------------

  class HomeScreen {
    var issueTitle: string
    var issueDescription: string
    var selected: string
    var image: Option<string>
    var selectedPriority: string
    var isMaintenanceModalVisible: bool
    var announcements: seq<Announcements.Announcement>
    var requestCount: nat
    var loading: bool

    constructor ()
      ensures issueTitle == "" && issueDescription == "" && selected == "" && image == None
      ensures selectedPriority == "" && !isMaintenanceModalVisible
      ensures announcements == [] && requestCount == 0 && loading
    {
      issueTitle := "";
      issueDescription := "";
      selected := "";
      image := None;
      selectedPriority := "";
      isMaintenanceModalVisible := false;
      announcements := [];
      requestCount := 0;
      loading := true;
    }

    function Form(): RequestForm
      reads this
    {
      RequestForm(issueTitle, issueDescription, selected, selectedPriority, image)
    }

    /** The three announcements passed to the list. */
    function RecentAnnouncements(): (r: seq<Announcements.Announcement>)
      reads this
      ensures |r| <= 3 && |r| <= |announcements| && r == announcements[..|r|]
    {
      FirstThree(announcements)
    }

    /** `loadRequests`: the count becomes the number fetched; a failed fetch keeps the old count. */
    method LoadRequests(fetchedCount: Option<nat>)
      modifies this`requestCount, this`loading
      ensures requestCount == if fetchedCount.Some? then fetchedCount.value else old(requestCount)
      ensures !loading
    {
      loading := true;
      if fetchedCount.Some? {
        requestCount := fetchedCount.value;
      }
      loading := false;
    }

    /** `getRecentAnnouncements`: the fetched array is sorted in place, newest first, and kept. */
    method GetRecentAnnouncements(fetched: array<Announcements.Announcement>)
      modifies this`announcements, fetched
      ensures fetched[..] == Seqs.Sort(old(fetched[..]), Announcements.Newer)
      ensures announcements == fetched[..]
    {
      Seqs.SortInPlace(fetched, Announcements.Newer);
      announcements := fetched[..];
    }

    /**
     * `handleRepairRequestSubmit`: an incomplete form stops before any call and
     * changes nothing. Otherwise the request numbered `fetchedCount + 1` is
     * sent; when the write succeeds the title, description, type and image are
     * reset, the modal closes and the count is reloaded (the priority is kept).
     */
    method HandleRepairRequestSubmit(fetchedCount: nat, now: int, writeSucceeds: bool, reloadedCount: Option<nat>)
      returns (sent: Option<RepairRequest>)
      modifies this`issueTitle, this`issueDescription, this`selected, this`image,
               this`isMaintenanceModalVisible, this`requestCount, this`loading
      ensures sent == Submission(old(Form()), fetchedCount, now)
      ensures sent.None? || !writeSucceeds ==>
        && issueTitle == old(issueTitle) && issueDescription == old(issueDescription)
        && selected == old(selected) && image == old(image)
        && isMaintenanceModalVisible == old(isMaintenanceModalVisible)
        && requestCount == old(requestCount) && loading == old(loading)
      ensures sent.Some? && writeSucceeds ==>
        && issueTitle == "" && issueDescription == "" && selected == "" && image == None
        && !isMaintenanceModalVisible && !loading
        && requestCount == (if reloadedCount.Some? then reloadedCount.value else old(requestCount))
      ensures selectedPriority == old(selectedPriority)
    {
      sent := Submission(Form(), fetchedCount, now);
      if sent.Some? && writeSucceeds {
        issueTitle := "";
        issueDescription := "";
        selected := "";
        image := None;
        isMaintenanceModalVisible := false;
        LoadRequests(reloadedCount);
      }
    }
  }
}
