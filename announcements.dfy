/**
 * The announcements screen: the fetched list shown newest first, and the
 * handlers that create, load for editing, update and delete an announcement.
 * Database calls are inputs: whether the write succeeded and what a re-fetch
 * returned.
 */
module Announcements {
  import opened Wrappers
  import Seqs

  /** A stored announcement; `createdAt` is a timestamp in milliseconds. */
  datatype Announcement = Announcement(id: string, title: string, details: string, createdAt: int)

  /** The document written by a create. */
  datatype NewAnnouncement = NewAnnouncement(title: string, details: string, createdAt: int)

  /** The fields written by an update of document `id`. */
  datatype AnnouncementUpdate = AnnouncementUpdate(id: Option<string>, title: string, details: string, updatedAt: int)

  // ---- newest first --------------------------------------------------------

  /** The comparator `new Date(b.createdAt) - new Date(a.createdAt)` is negative: `a` is newer. */
  predicate Newer(a: Announcement, b: Announcement)
  {
    b.createdAt < a.createdAt
  }

  /** `createdAt` never increases along the list. */
  predicate NewestFirst(s: seq<Announcement>)
  {
    forall i, j :: 0 <= i < j < |s| ==> s[j].createdAt <= s[i].createdAt
  }

  lemma NewerIsStrictWeakOrder()
    ensures Seqs.StrictWeakOrder(Newer)
  {
  }

  /** The sorted list holds the same announcements, newest first. */
  lemma SortIsNewestFirst(s: seq<Announcement>)
    ensures NewestFirst(Seqs.Sort(s, Newer))
    ensures multiset(Seqs.Sort(s, Newer)) == multiset(s)
  {
    NewerIsStrictWeakOrder();
    Seqs.SortSorted(s, Newer);
    Seqs.SortPermutation(s, Newer);
  }

  /** A list already newest first, ties included, is left exactly as it is. */
  lemma SortKeepsNewestFirst(s: seq<Announcement>)
    requires NewestFirst(s)
    ensures Seqs.Sort(s, Newer) == s
  {
    Seqs.SortOfSorted(s, Newer);
  }

  // ---- find and delete ------------------------------------------------------

  /** `announcements.find(a => a.id === id)`: the first announcement with the id. */
  function Find(s: seq<Announcement>, id: string): (r: Option<Announcement>)
    ensures r.None? <==> forall i :: 0 <= i < |s| ==> s[i].id != id
    ensures r.Some? ==> r.value.id == id && r.value in s
  {
    if s == [] then None
    else if s[0].id == id then Some(s[0])
    else Find(s[1..], id)
  }

  /** What `Find` returns is the announcement at the first position holding the id. */
  lemma {:induction false} FindIsFirst(s: seq<Announcement>, id: string, k: nat)
    requires k < |s| && s[k].id == id
    requires forall i :: 0 <= i < k ==> s[i].id != id
    ensures Find(s, id) == Some(s[k])
  {
    if k > 0 {
      FindIsFirst(s[1..], id, k - 1);
    }
  }

  /** `announcements.filter(a => a.id !== id)`. */
  function Removed(s: seq<Announcement>, id: string): (r: seq<Announcement>)
    ensures |r| <= |s|
    ensures forall i :: 0 <= i < |r| ==> r[i].id != id
  {
    Seqs.Filter(s, (a: Announcement) => a.id != id)
  }

  /** After a delete no announcement has the id, and every other one is still there. */
  lemma RemovedExactly(s: seq<Announcement>, id: string)
    ensures forall a :: a in Removed(s, id) <==> a in s && a.id != id
  {
    var r := Removed(s, id);
    forall a | a in r ensures a in s && a.id != id {
      var i :| 0 <= i < |r| && r[i] == a;
    }
    forall a | a in s && a.id != id ensures a in r {
      var i :| 0 <= i < |s| && s[i] == a;
    }
  }

  /** The survivors keep their order: removing distributes over concatenation. */
  lemma RemovedKeepsOrder(a: seq<Announcement>, b: seq<Announcement>, id: string)
    ensures Removed(a + b, id) == Removed(a, id) + Removed(b, id)
  {
    Seqs.FilterConcat(a, b, (x: Announcement) => x.id != id);
  }

  /** A list shown newest first stays newest first after a delete. */
  lemma RemovedStaysNewestFirst(s: seq<Announcement>, id: string)
    requires NewestFirst(s)
    ensures NewestFirst(Removed(s, id))
  {
    if s != [] {
      assert s == [s[0]] + s[1..];
      RemovedKeepsOrder([s[0]], s[1..], id);
      RemovedStaysNewestFirst(s[1..], id);
      var rest := Removed(s[1..], id);
      forall i | 0 <= i < |rest| ensures rest[i].createdAt <= s[0].createdAt {
        var j :| 0 <= j < |s[1..]| && s[1..][j] == rest[i];
        assert s[j + 1] == rest[i];
      }
    }
  }

  // ---- the screen ------------------------------------------------------------

  class AnnouncementsScreen {
    var isCreatePost: bool
    var announcementTitle: string
    var announcementDetails: string
    var announcements: seq<Announcement>
    var isEditPost: bool
    var editId: Option<string>

    constructor ()
      ensures !isCreatePost && announcementTitle == "" && announcementDetails == ""
      ensures announcements == [] && !isEditPost && editId == None
    {
      isCreatePost := false;
      announcementTitle := "";
      announcementDetails := "";
      announcements := [];
      isEditPost := false;
      editId := None;
    }

    /** The focus effect: the fetched array is sorted in place, newest first, and shown. */
    method GetAnnouncements(fetched: array<Announcement>)
      modifies this`announcements, fetched
      ensures fetched[..] == Seqs.Sort(old(fetched[..]), Newer)
      ensures announcements == fetched[..]
    {
      Seqs.SortInPlace(fetched, Newer);
      announcements := fetched[..];
    }

    /**
     * `handleAnnouncementSubmit`: an empty title or details stops before any
     * write. Otherwise the announcement is sent; if the write fails nothing
     * changes. After a successful write the drafts are cleared, and if the
     * re-fetch succeeds its list (not re-sorted) is shown and the modal closed.
     */
    method HandleAnnouncementSubmit(now: int, writeSucceeds: bool, refetched: Option<seq<Announcement>>)
      returns (sent: Option<NewAnnouncement>)
      modifies this`announcementTitle, this`announcementDetails, this`announcements, this`isCreatePost
      ensures old(announcementTitle) == "" || old(announcementDetails) == "" ==>
        && sent == None
        && announcementTitle == old(announcementTitle) && announcementDetails == old(announcementDetails)
        && announcements == old(announcements) && isCreatePost == old(isCreatePost)
      ensures old(announcementTitle) != "" && old(announcementDetails) != "" ==>
        sent == Some(NewAnnouncement(old(announcementTitle), old(announcementDetails), now))
      ensures sent.Some? && !writeSucceeds ==>
        && announcementTitle == old(announcementTitle) && announcementDetails == old(announcementDetails)
        && announcements == old(announcements) && isCreatePost == old(isCreatePost)
      ensures sent.Some? && writeSucceeds ==>
        && announcementTitle == "" && announcementDetails == ""
        && (refetched.Some? ==> announcements == refetched.value && !isCreatePost)
        && (refetched.None? ==> announcements == old(announcements) && isCreatePost == old(isCreatePost))
    {
      if announcementTitle == "" || announcementDetails == "" {
        return None;
      }
      sent := Some(NewAnnouncement(announcementTitle, announcementDetails, now));
      if writeSucceeds {
        announcementTitle := "";
        announcementDetails := "";
        if refetched.Some? {
          announcements := refetched.value;
          isCreatePost := false;
        }
      }
    }

    /**
     * `handleEdit`: an id that is listed loads that announcement into the drafts
     * and opens the edit modal for it; an unknown id changes nothing.
     */
    method HandleEdit(id: string)
      modifies this`announcementTitle, this`announcementDetails, this`editId, this`isEditPost
      ensures Find(announcements, id).None? ==>
        && announcementTitle == old(announcementTitle) && announcementDetails == old(announcementDetails)
        && editId == old(editId) && isEditPost == old(isEditPost)
      ensures Find(announcements, id).Some? ==>
        && announcementTitle == Find(announcements, id).value.title
        && announcementDetails == Find(announcements, id).value.details
        && editId == Some(id) && isEditPost
    {
      var found := Find(announcements, id);
      if found.Some? {
        announcementTitle := found.value.title;
        announcementDetails := found.value.details;
        editId := Some(id);
        isEditPost := true;
      }
    }

    /**
     * `handleEditSubmit`: an empty title or details stops before any write.
     * Otherwise the update for `editId` is sent; if it fails nothing changes;
     * after success the drafts and the edit state are reset and, if the
     * re-fetch succeeds, its list is shown.
     */
    method HandleEditSubmit(now: int, writeSucceeds: bool, refetched: Option<seq<Announcement>>)
      returns (sent: Option<AnnouncementUpdate>)
      modifies this`announcementTitle, this`announcementDetails, this`editId, this`isEditPost, this`announcements
      ensures old(announcementTitle) == "" || old(announcementDetails) == "" ==>
        && sent == None
        && announcementTitle == old(announcementTitle) && announcementDetails == old(announcementDetails)
        && editId == old(editId) && isEditPost == old(isEditPost) && announcements == old(announcements)
      ensures old(announcementTitle) != "" && old(announcementDetails) != "" ==>
        sent == Some(AnnouncementUpdate(old(editId), old(announcementTitle), old(announcementDetails), now))
      ensures sent.Some? && !writeSucceeds ==>
        && announcementTitle == old(announcementTitle) && announcementDetails == old(announcementDetails)
        && editId == old(editId) && isEditPost == old(isEditPost) && announcements == old(announcements)
      ensures sent.Some? && writeSucceeds ==>
        && announcementTitle == "" && announcementDetails == "" && editId == None && !isEditPost
        && announcements == (if refetched.Some? then refetched.value else old(announcements))
    {
      if announcementTitle == "" || announcementDetails == "" {
        return None;
      }
      sent := Some(AnnouncementUpdate(editId, announcementTitle, announcementDetails, now));
      if writeSucceeds {
        announcementTitle := "";
        announcementDetails := "";
        editId := None;
        isEditPost := false;
        if refetched.Some? {
          announcements := refetched.value;
        }
      }
    }

    /** `handleDelete`, confirmed: after a successful delete every announcement with the id is dropped from the list. */
    method HandleDelete(id: string, deleteSucceeds: bool)
      modifies this`announcements
      ensures deleteSucceeds ==> announcements == Removed(old(announcements), id)
      ensures !deleteSucceeds ==> announcements == old(announcements)
    {
      if deleteSucceeds {
        announcements := Removed(announcements, id);
      }
    }
  }
}
