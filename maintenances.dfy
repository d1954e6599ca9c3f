/**
 * The maintenance screen's ordering of the fetched repair requests. The
 * function is named and documented as a priority sort, but its comparator
 * reads only `createdAt`: requests come out newest first.
 */
module Maintenances {
  import Seqs

  /** A fetched repair request, as the cards read it; `createdAt` is a timestamp. */
  datatype Request = Request(title: string, requestType: string, description: string, status: string,
                             priority: string, createdAt: int)

  /** The comparator `new Date(b.createdAt) - new Date(a.createdAt)` is negative: `a` is newer. */
  predicate Newer(a: Request, b: Request)
  {
    b.createdAt < a.createdAt
  }

  /**
   * `sortRequestsByPriority`: `requests.sort(...)` reorders the fetched array in
   * place and returns that same array.
   */
  method SortRequestsByPriority(requests: array<Request>) returns (sorted: array<Request>)
    modifies requests
    ensures sorted == requests
    ensures sorted[..] == Seqs.Sort(old(requests[..]), Newer)
  {
    Seqs.SortInPlace(requests, Newer);
    sorted := requests;
  }

  /** The sorted list holds exactly the fetched requests, newest first. */
  lemma SortedIsNewestFirstPermutation(s: seq<Request>)
    ensures multiset(Seqs.Sort(s, Newer)) == multiset(s) && |Seqs.Sort(s, Newer)| == |s|
    ensures var r := Seqs.Sort(s, Newer);
      forall i, j :: 0 <= i < j < |r| ==> r[j].createdAt <= r[i].createdAt
  {
    assert Seqs.StrictWeakOrder(Newer);
    Seqs.SortSorted(s, Newer);
    Seqs.SortPermutation(s, Newer);
  }

  function WithoutPriority(r: Request): Request
  {
    r.(priority := "")
  }

  /**
   * The priority plays no part in the order: two fetches that differ only in
   * their priorities are arranged in the same way.
   */
  lemma PriorityIgnored(s: seq<Request>, t: seq<Request>)
    requires |s| == |t| && forall i :: 0 <= i < |s| ==> WithoutPriority(s[i]) == WithoutPriority(t[i])
    ensures Seqs.Map(Seqs.Sort(s, Newer), WithoutPriority) == Seqs.Map(Seqs.Sort(t, Newer), WithoutPriority)
  {
    Seqs.SortMap(s, WithoutPriority, Newer, Newer);
    Seqs.SortMap(t, WithoutPriority, Newer, Newer);
    assert Seqs.Map(s, WithoutPriority) == Seqs.Map(t, WithoutPriority);
  }

  /** An older "High" request stays behind a newer "Low" one. */
  lemma OlderHighStaysBehind(high: Request, low: Request)
    requires high.priority == "High" && low.priority == "Low" && high.createdAt < low.createdAt
    ensures Seqs.Sort([high, low], Newer) == [low, high]
    ensures Seqs.Sort([low, high], Newer) == [low, high]
  {
    assert [high, low][..1] == [high] && [high][..0] == [];
    assert [low, high][..1] == [low] && [low][..0] == [];
    assert Seqs.Sort([high], Newer) == [high];
    assert Seqs.Sort([low], Newer) == [low];
  }
}
