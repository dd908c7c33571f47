/**
 * The event search page (`components/Events/EventsSearchFeed.tsx`): a query
 * box, a search button that fetches up to ten events whose name contains the
 * query, and a list that the results replace.
 *
 * `handleSearch` awaits the store; `BeginSearch` is everything before the
 * await (including the query sent) and `CompleteSearch` everything after.
 */
module EventsSearch {
  import opened Common
  import EventsFeed

  const Limit := 10

  /** `from('events').select('*').ilike(column, pattern).order(orderColumn, { ascending }).limit(limit)`. */
  datatype SearchQuery = SearchQuery(table: string, column: string, pattern: string, orderColumn: string, ascending: bool, limit: nat)

  datatype SearchResult = SearchFailed | Found(rows: seq<EventsFeed.EventRow>)

  /** What the list area shows. */
  datatype View = Prompt(text: string) | NoResults(text: string) | Cards(events: seq<EventsFeed.EventRow>)

  /** The query for the text in the box: names containing it, newest start first, ten at most. */
  function QueryFor(searchQuery: string): (q: SearchQuery)
    ensures q.table == "events" && q.column == "event_name"
    ensures q.pattern == "%" + searchQuery + "%"
    ensures q.orderColumn == "event_start_date" && !q.ascending && q.limit == Limit
  {
    SearchQuery("events", "event_name", "%" + searchQuery + "%", "event_start_date", false, Limit)
  }

  class EventsSearchView {
    var events: seq<EventsFeed.EventRow>
    var searchQuery: string
    var loading: bool
    var searched: bool
    var page: nat
    var hasMore: bool

    constructor ()
      ensures events == [] && searchQuery == "" && !loading && !searched && page == 0 && hasMore
    {
      events, searchQuery, loading, searched, page, hasMore := [], "", false, false, 0, true;
    }

    /** `handleSearchChange`. */
    method SetSearchQuery(value: string)
      modifies this`searchQuery
      ensures searchQuery == value
    {
      searchQuery := value;
    }

    /** `handleSearch` up to the await: the page is reset and the query is sent. */
    method BeginSearch() returns (request: SearchQuery)
      modifies this`loading, this`searched, this`page, this`hasMore
      ensures loading && searched && page == 0 && hasMore
      ensures request == QueryFor(searchQuery)
    {
      loading := true;
      searched := true;
      page := 0;
      hasMore := true;
      request := QueryFor(searchQuery);
    }

    /** `handleSearch` after the await: results replace the list, and fewer than
        ten end the results; on error the list and `hasMore` stay. */
    method CompleteSearch(result: SearchResult)
      modifies this`events, this`hasMore, this`loading
      ensures !loading
      ensures result.SearchFailed? ==> events == old(events) && hasMore == old(hasMore)
      ensures result.Found? ==> events == result.rows && hasMore == (old(hasMore) && |result.rows| >= Limit)
    {
      if result.Found? {
        events := result.rows;
        if |result.rows| < Limit {
          hasMore := false;
        }
      }
      loading := false;
    }

    /** The list area: a prompt before any search, a notice for an empty result,
        otherwise one card per event. */
    function Shown(): (v: View)
      reads this
      ensures !searched ==> v == Prompt("Search to display events")
      ensures searched && events == [] ==> v == NoResults("No events found")
      ensures searched && events != [] ==> v == Cards(events)
    {
      if !searched then Prompt("Search to display events")
      else if |events| > 0 then Cards(events)
      else NoResults("No events found")
    }

    /** The line under the list. */
    function LoadingText(): (s: string)
      reads this
      ensures s == (if loading then "Loading..." else "")
    {
      if loading then "Loading..." else ""
    }
  }

  /** A whole search: sends the query for the box's text; afterwards the page has
      searched, the list is the result (or unchanged on error), and `hasMore`
      holds exactly when a full page of ten came back (or the query failed). */
  method Search(view: EventsSearchView, result: SearchResult) returns (request: SearchQuery)
    modifies view
    ensures request == QueryFor(view.searchQuery)
    ensures view.searched && !view.loading && view.page == 0 && view.searchQuery == old(view.searchQuery)
    ensures result.SearchFailed? ==> view.events == old(view.events) && view.hasMore
    ensures result.Found? ==> view.events == result.rows && (view.hasMore <==> |result.rows| >= Limit)
  {
    request := view.BeginSearch();
    view.CompleteSearch(result);
  }
}
