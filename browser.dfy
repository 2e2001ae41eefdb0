/** The view state of the downloads section (src/App.jsx:23-347) and its handlers. */
module Browser {
  import opened Options
  import opened Text
  import opened Tags
  import opened Filter
  import opened Paging

  /** How the one tag fetch of the section ends: a JSON array of tags, or a failure
      (network error, unreadable body, or a body that is not an array). */
  datatype FetchOutcome = Fetched(raw: seq<RawTag>) | FetchFailed

  class ReleaseBrowser {
    var tags: seq<ViewTag>
    var loading: bool
    var currentPage: int
    var searchTerm: string
    var selectedTag: Option<ViewTag>

    /** The state the handlers keep: the page is 1 or one of the pages of the
        filtered list, nothing has been loaded or chosen while loading, a selected
        tag is one of the fetched tags, and the tags are as formatting made them. */
    ghost predicate Valid()
      reads this
    {
      1 <= currentPage &&
      (currentPage == 1 || currentPage <= PageCount()) &&
      (loading ==> tags == [] && currentPage == 1) &&
      (selectedTag.Some? ==> selectedTag.value in tags) &&
      WellFormed(tags)
    }

    /** `filteredTags` (src/App.jsx:58-61). */
    function Filtered(): (r: seq<ViewTag>)
      reads this
      ensures forall t :: t in r <==> t in tags && Matches(t, searchTerm)
    {
      FilterExactAll(tags, searchTerm);
      FilterTags(tags, searchTerm)
    }

    /** `totalPages` (src/App.jsx:63). */
    function PageCount(): (k: nat)
      reads this
      ensures k == 0 <==> Filtered() == []
      ensures k * PageSize >= |Filtered()|
    {
      TotalPages(|Filtered()|)
    }

    /** `displayedTags` (src/App.jsx:64-67): at most one page of tags, each of them
        fetched and matching the search term. */
    function Displayed(): (r: seq<ViewTag>)
      reads this
      ensures |r| <= PageSize
      ensures forall t :: t in r ==> t in tags && Matches(t, searchTerm)
    {
      PageSliceBounded(Filtered(), currentPage);
      FilterExactAll(tags, searchTerm);
      PageSlice(Filtered(), currentPage)
    }

    /** The results line under the grid (src/App.jsx:204-206). */
    function Line(): (r: ResultsLine)
      reads this
      ensures r.total == |Filtered()| && r.last <= r.total
      ensures currentPage >= 1 ==> 1 <= r.first && r.last - r.first < PageSize
    {
      Results(currentPage, |Filtered()|)
    }

    /** The detail view is shown exactly when a tag is selected (src/App.jsx:119). */
    predicate InDetail()
      reads this
    {
      selectedTag.Some?
    }

    /** In every reachable state, the grid is empty only when nothing matches, and
        while something matches the results line counts the cards shown. */
    lemma ShownAgreesWithLine()
      requires Valid()
      ensures Displayed() == [] <==> Filtered() == []
      ensures Filtered() != [] ==>
        Line().last - Line().first + 1 == |Displayed()| && Line().total == |Filtered()|
    {
      if Filtered() != [] {
        ResultsLineCountsShown(Filtered(), currentPage);
      }
    }

    /** Every card shown carries a name that contains the search term, ignoring case. */
    lemma DisplayedNamesContainTerm()
      requires Valid()
      ensures forall t :: t in Displayed() ==> Contains(Lower(t.name), Lower(searchTerm))
    {
      forall t | t in Displayed()
        ensures Contains(Lower(t.name), Lower(searchTerm))
      {
        var i :| 0 <= i < |tags| && tags[i] == t;
      }
    }

    /** The initial state (src/App.jsx:24-28). */
    constructor ()
      ensures Valid()
      ensures tags == [] && loading && currentPage == 1 && searchTerm == "" && selectedTag == None
    {
      tags := [];
      loading := true;
      currentPage := 1;
      searchTerm := "";
      selectedTag := None;
    }

    /** The end of the mount-time fetch (src/App.jsx:32-53): on success the tags are
        replaced by their formatted records; on failure they stay as they were.
        Either way loading ends. */
    method ApplyFetch(outcome: FetchOutcome)
      requires Valid() && loading
      modifies this
      ensures Valid()
      ensures tags == (if outcome.Fetched? then FormatTags(outcome.raw) else old(tags))
      ensures !loading
      ensures currentPage == old(currentPage) && searchTerm == old(searchTerm)
      ensures selectedTag == old(selectedTag)
    {
      if outcome.Fetched? {
        FormatTagsWellFormed(outcome.raw);
        tags := FormatTags(outcome.raw);
      }
      loading := false;
    }

    /** `handlePageChange` (src/App.jsx:69-73): moves to `page` only when it is one
        of the pages of the filtered list; otherwise nothing changes. */
    method HandlePageChange(page: int)
      requires Valid()
      requires !loading && !InDetail()
      modifies this
      ensures Valid()
      ensures currentPage == if 0 < page <= old(PageCount()) then page else old(currentPage)
      ensures tags == old(tags) && loading == old(loading)
      ensures searchTerm == old(searchTerm) && selectedTag == old(selectedTag)
    {
      if page > 0 && page <= PageCount() {
        currentPage := page;
      }
    }

    /** The "Previous" button (src/App.jsx:169): one page back, except on page 1. */
    method PreviousPage()
      requires Valid()
      requires !loading && !InDetail()
      modifies this
      ensures Valid()
      ensures currentPage == if old(currentPage) > 1 then old(currentPage) - 1 else old(currentPage)
      ensures tags == old(tags) && loading == old(loading)
      ensures searchTerm == old(searchTerm) && selectedTag == old(selectedTag)
    {
      HandlePageChange(currentPage - 1);
    }

    /** The "Next" button (src/App.jsx:193): one page on, except on the last page. */
    method NextPage()
      requires Valid()
      requires !loading && !InDetail()
      modifies this
      ensures Valid()
      ensures currentPage ==
        if old(currentPage) < old(PageCount()) then old(currentPage) + 1 else old(currentPage)
      ensures tags == old(tags) && loading == old(loading)
      ensures searchTerm == old(searchTerm) && selectedTag == old(selectedTag)
    {
      HandlePageChange(currentPage + 1);
    }

    /** Editing the search box (src/App.jsx:104-107): the new term, and back to page 1. */
    method SetSearchTerm(term: string)
      requires Valid()
      requires !loading
      modifies this
      ensures Valid()
      ensures searchTerm == term && currentPage == 1
      ensures tags == old(tags) && loading == old(loading) && selectedTag == old(selectedTag)
    {
      searchTerm := term;
      currentPage := 1;
    }

    /** Clicking a card or its "Import" button (src/App.jsx:125, 144): the view
        switches to that tag's details. */
    method Select(t: ViewTag)
      requires Valid()
      requires !loading && !InDetail()
      requires t in Displayed()
      modifies this
      ensures Valid()
      ensures selectedTag == Some(t) && InDetail()
      ensures tags == old(tags) && loading == old(loading)
      ensures searchTerm == old(searchTerm) && currentPage == old(currentPage)
    {
      selectedTag := Some(t);
    }

    /** "Back to all versions" (src/App.jsx:213): the grid again, with the search
        and the page as they were. */
    method Back()
      requires Valid()
      requires !loading && InDetail()
      modifies this
      ensures Valid()
      ensures selectedTag == None && !InDetail()
      ensures tags == old(tags) && loading == old(loading)
      ensures searchTerm == old(searchTerm) && currentPage == old(currentPage)
    {
      selectedTag := None;
    }
  }

  /** The names of a list of view records. */
  function Names(vs: seq<ViewTag>): (r: seq<string>)
    ensures |r| == |vs|
    ensures forall i :: 0 <= i < |vs| ==> r[i] == vs[i].name
  {
    seq(|vs|, i requires 0 <= i < |vs| => vs[i].name)
  }

  /** Three tags received newest first, no search term: one page, all three
      shown in the received order. */
  method ThreeTagsScenario() returns (shown: seq<string>, pages: nat)
    ensures shown == ["v2.0", "v1.1", "v1.0"] && pages == 1
  {
    var raw := [RawTag("v2.0", "z2", "t2", "c2"), RawTag("v1.1", "z1", "t1", "c1"),
                RawTag("v1.0", "z0", "t0", "c0")];
    var b := new ReleaseBrowser();
    b.ApplyFetch(Fetched(raw));
    FilterEmptyTerm(b.tags);
    FormatTagsAt(raw, 0);
    FormatTagsAt(raw, 1);
    FormatTagsAt(raw, 2);
    JsSliceNonNegative(b.tags, 0, PageSize);
    shown := Names(b.Displayed());
    pages := b.PageCount();
  }

  /** A failed fetch: loading ends and the grid shows no card. */
  method FailedFetchScenario() returns (shown: seq<ViewTag>, stillLoading: bool)
    ensures shown == [] && !stillLoading
  {
    var b := new ReleaseBrowser();
    b.ApplyFetch(FetchFailed);
    shown := b.Displayed();
    stillLoading := b.loading;
  }
}
