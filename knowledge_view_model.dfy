/** The knowledge list: pages of points fetched incrementally from the service, and the
    in-memory edits that mirror creation, update and deletion.

    Each remote call appears as the `Outcome` it produced. For the page load, whose
    request is modelled, the access-token fetch before it is an `Outcome` of its own:
    when it fails no page is requested. Elsewhere a failed fetch is folded into the
    call's failure. */
module KnowledgeList {
  import opened Wrappers
  import opened Sequences
  import opened Models
  import opened LocalStorage

  /** The page size. */
  const Limit: int := 20

  /** What `loadKnowledgePoints` asks the service for. */
  datatype PageRequest = PageRequest(accessToken: string, limit: int, offset: int)

  function DisplayId(p: KnowledgePoint): string { p.id }

  function DisplayWithoutId(id: string): KnowledgePoint -> bool {
    (p: KnowledgePoint) => p.id != id
  }

  class KnowledgeViewModel {
    var knowledgePoints: seq<KnowledgePoint>
    var isLoading: bool
    var error: Option<string>
    var offset: int
    var hasMore: bool

    ghost predicate Valid()
      reads this
    {
      offset >= 0
    }

    constructor ()
      ensures Valid()
      ensures knowledgePoints == [] && !isLoading && error.None? && offset == 0 && hasMore
    {
      knowledgePoints := [];
      isLoading := false;
      error := None;
      offset := 0;
      hasMore := true;
    }

    /** Loads the next page. `refresh` first empties the list and rewinds the cursor.
        Nothing is fetched when the last page has been seen or a load is under way.
        A page is appended in order and advances the offset by its length; a page shorter
        than `Limit` marks the end. A failed token fetch (`token`) or page fetch
        (`outcome`) keeps the list and the cursor and records the error; after a failed
        token fetch no page is requested. */
    method LoadKnowledgePoints(refresh: bool, token: Outcome<string>, outcome: Outcome<seq<KnowledgePoint>>)
      returns (request: Option<PageRequest>)
      requires Valid()
      modifies this
      ensures Valid()
      ensures var baseList := if refresh then [] else old(knowledgePoints);
              var baseOffset := if refresh then 0 else old(offset);
              var baseHasMore := refresh || old(hasMore);
              var fetched := baseHasMore && !old(isLoading);
        && (request.Some? <==> fetched && token.Success?)
        && (fetched ==> !isLoading)
        && (fetched && token.Success? ==> request.value == PageRequest(token.value, Limit, baseOffset))
        && (!fetched ==>
              && knowledgePoints == baseList && offset == baseOffset && hasMore == baseHasMore
              && isLoading == old(isLoading) && error == old(error))
        && (fetched && token.Success? && outcome.Success? ==>
              && knowledgePoints == baseList + outcome.value
              && offset == baseOffset + |outcome.value|
              && (hasMore <==> |outcome.value| >= Limit)
              && error.None?)
        && (fetched && (token.Failure? || outcome.Failure?) ==>
              && knowledgePoints == baseList && offset == baseOffset && hasMore
              && error == Some(if token.Failure? then token.message else outcome.message))
    {
      if refresh {
        offset := 0;
        hasMore := true;
        knowledgePoints := [];
      }
      if !hasMore || isLoading {
        return None;
      }
      isLoading := true;
      error := None;
      match token {
        case Failure(message) =>
          error := Some(message);
          request := None;
        case Success(accessToken) =>
          request := Some(PageRequest(accessToken, Limit, offset));
          match outcome {
            case Success(points) =>
              if |points| < Limit {
                hasMore := false;
              }
              knowledgePoints := knowledgePoints + points;
              offset := offset + |points|;
            case Failure(message) =>
              error := Some(message);
          }
      }
      isLoading := false;
    }

    /** Puts the created point at the head of the list; the offset is left alone. A
        failed creation changes nothing and is reported. */
    method CreateKnowledgePoint(outcome: Outcome<KnowledgePoint>) returns (thrown: Option<string>)
      modifies this`knowledgePoints
      ensures outcome.Success? ==> thrown.None? && knowledgePoints == [outcome.value] + old(knowledgePoints)
      ensures outcome.Failure? ==> thrown == Some(outcome.message) && knowledgePoints == old(knowledgePoints)
    {
      match outcome {
        case Success(newPoint) =>
          knowledgePoints := [newPoint] + knowledgePoints;
          thrown := None;
        case Failure(message) =>
          thrown := Some(message);
      }
    }

    /** Replaces the first listed point with the id by the updated one; a list without the
        id, or a failed update, stays as it is. */
    method UpdateKnowledgePoint(id: string, outcome: Outcome<KnowledgePoint>) returns (thrown: Option<string>)
      modifies this`knowledgePoints
      ensures thrown.None? <==> outcome.Success?
      ensures outcome.Failure? ==> thrown == Some(outcome.message) && knowledgePoints == old(knowledgePoints)
      ensures outcome.Success? ==>
        match FirstIndexOf(old(knowledgePoints), DisplayId, id)
        case None => knowledgePoints == old(knowledgePoints)
        case Some(i) => knowledgePoints == old(knowledgePoints)[i := outcome.value]
    {
      match outcome {
        case Success(updatedPoint) =>
          var found := FirstIndexOf(knowledgePoints, DisplayId, id);
          if found.Some? {
            knowledgePoints := knowledgePoints[found.value := updatedPoint];
          }
          thrown := None;
        case Failure(message) =>
          thrown := Some(message);
      }
    }

    /** Removes every listed point with the id after a successful remote deletion. */
    method DeleteKnowledgePoint(id: string, outcome: Outcome<()>) returns (thrown: Option<string>)
      modifies this`knowledgePoints
      ensures outcome.Success? ==> thrown.None? && knowledgePoints == Filter(old(knowledgePoints), DisplayWithoutId(id))
      ensures outcome.Failure? ==> thrown == Some(outcome.message) && knowledgePoints == old(knowledgePoints)
    {
      match outcome {
        case Success(_) =>
          knowledgePoints := Filter(knowledgePoints, DisplayWithoutId(id));
          thrown := None;
        case Failure(message) =>
          thrown := Some(message);
      }
    }
  }

  /** Paging through the store's newest-first listing: the next page continues what
      was loaded so far, and a page shorter than `Limit` means the listing is exhausted.
      The converse does not hold: when the listing ends exactly at a page boundary the
      last page is full, and one more, empty, fetch is needed to clear `hasMore`. */
  lemma NextPageContinuesListing(store: LocalStorageService, offset: nat)
    requires offset <= |store.knowledgePoints|
    ensures var all := store.GetAllKnowledgePoints();
            var page := store.GetKnowledgePoints(Limit, offset);
      && offset + |page| <= |all|
      && all[..offset] + page == all[..offset + |page|]
      && (|page| < Limit ==> offset + |page| == |all|)
  {
    var all := store.GetAllKnowledgePoints();
    var page := store.GetKnowledgePoints(Limit, offset);
    assert all[..offset] + page == all[..offset + |page|];
  }
}
