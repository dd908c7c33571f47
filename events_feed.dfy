/**
 * The swipeable event feed (`components/Events/EventsFeed.tsx`): events are
 * loaded ten at a time, newest start date first, and shown one card at a time;
 * a horizontal swipe of more than 100 pixels moves to the previous or next card,
 * and reaching the last loaded card loads the next page.
 *
 * `fetchEvents` awaits the store, and while it waits `loading` is set and other
 * handlers see it; it is therefore two steps here: `BeginFetch` (the guard and
 * the query it sends) and `CompleteFetch` (what the answer does to the state).
 */
module EventsFeed {
  import opened Common

  const Limit := 10
  const SwipeThreshold := 100
  const MaxTilt: real := 15.0

  datatype EventRow = EventRow(id: int, eventName: string, eventStartDate: int)

  /** `from('events').select('*').order(column, { ascending }).range(from, to)`. */
  datatype RangeQuery = RangeQuery(table: string, orderColumn: string, ascending: bool, from: int, to: int)

  /** The store's answer: an error (or no data), or the rows. */
  datatype FetchResult = FetchFailed | Rows(rows: seq<EventRow>)

  /** The query for page `page`: rows `page * 10` to `page * 10 + 9` inclusive,
      newest start date first. */
  function PageQuery(page: nat): (q: RangeQuery)
    ensures q.table == "events" && q.orderColumn == "event_start_date" && !q.ascending
    ensures q.from == page * Limit && q.to - q.from + 1 == Limit
  {
    RangeQuery("events", "event_start_date", false, page * Limit, page * Limit + Limit - 1)
  }

  /** Consecutive pages cover adjacent, non-overlapping row ranges. */
  lemma PagesTile(page: nat)
    ensures PageQuery(page + 1).from == PageQuery(page).to + 1
  {
  }

  /** The card's rotation: a tenth of the offset, clamped to [-15, 15] degrees. */
  function Tilt(swipeOffset: int): (t: real)
    ensures -MaxTilt <= t <= MaxTilt
    ensures -150 <= swipeOffset <= 150 ==> t == swipeOffset as real / 10.0
    ensures swipeOffset >= 150 ==> t == MaxTilt
    ensures swipeOffset <= -150 ==> t == -MaxTilt
  {
    var raw := swipeOffset as real / 10.0;
    var upper := if raw < MaxTilt then raw else MaxTilt;
    if upper > -MaxTilt then upper else -MaxTilt
  }

  function Abs(x: int): nat
  {
    if x < 0 then -x else x
  }

  class EventsFeedView {
    var events: seq<EventRow>
    var loading: bool
    var page: nat
    var hasMore: bool
    var currentIndex: nat
    var swipeOffset: int
    var swiping: bool
    var touchStartX: Option<int>
    var touchStartY: Option<int>

    /** The index points at a loaded card (or is 0), and pages were counted
        exactly when rows arrived: no page means no events. */
    ghost predicate Valid()
      reads this
    {
      && (currentIndex == 0 || currentIndex < |events|)
      && (page == 0 <==> events == [])
      && page <= |events|
    }

    constructor ()
      ensures Valid()
      ensures events == [] && !loading && page == 0 && hasMore && currentIndex == 0
      ensures swipeOffset == 0 && !swiping && touchStartX.None? && touchStartY.None?
    {
      events, loading, page, hasMore, currentIndex := [], false, 0, true, 0;
      swipeOffset, swiping, touchStartX, touchStartY := 0, false, None, None;
    }

    /** The card on screen: `events[currentIndex]` when there is one. */
    function ShownCard(): (c: Option<EventRow>)
      reads this
      requires Valid()
      ensures c.None? <==> events == []
      ensures c.Some? ==> c.value == events[currentIndex]
    {
      if |events| > 0 && currentIndex < |events| then Some(events[currentIndex]) else None
    }

    /** The status line under the card. */
    function StatusText(): (s: string)
      reads this
      ensures loading ==> s == "Loading more..."
      ensures !loading ==> s == "Swipe right/left for previous/next"
    {
      if loading then "Loading more..." else "Swipe right/left for previous/next"
    }

    /** First half of `fetchEvents`: nothing happens while loading or once the feed
        is exhausted; otherwise `loading` is set and the current page is requested. */
    method BeginFetch() returns (request: Option<RangeQuery>)
      requires Valid()
      modifies this`loading
      ensures Valid()
      ensures old(loading) || !hasMore ==> request.None? && loading == old(loading)
      ensures !old(loading) && hasMore ==> loading && request == Some(PageQuery(page))
    {
      if loading || !hasMore {
        return None;
      }
      loading := true;
      request := Some(PageQuery(page));
    }

    /** Second half of `fetchEvents`: a short page ends the feed; a non-empty page
        is appended in order and advances `page`; an error changes nothing but
        `loading`, which is cleared on every path. */
    method CompleteFetch(result: FetchResult)
      requires Valid()
      modifies this`events, this`page, this`hasMore, this`loading
      ensures Valid()
      ensures !loading
      ensures result.FetchFailed? ==> events == old(events) && page == old(page) && hasMore == old(hasMore)
      ensures result.Rows? ==>
        && hasMore == (old(hasMore) && |result.rows| >= Limit)
        && events == old(events) + result.rows
        && page == (if result.rows == [] then old(page) else old(page) + 1)
    {
      if result.Rows? {
        var data := result.rows;
        if |data| < Limit {
          hasMore := false;
        }
        if |data| > 0 {
          events := events + data;
          page := page + 1;
        }
      }
      loading := false;
    }

    /** `handleTouchStart`: remember where the finger went down. */
    method TouchStart(x: int, y: int)
      requires Valid()
      modifies this`touchStartX, this`touchStartY, this`swiping
      ensures Valid()
      ensures touchStartX == Some(x) && touchStartY == Some(y) && swiping
    {
      touchStartX, touchStartY := Some(x), Some(y);
      swiping := true;
    }

    /** `handleTouchMove`: follow the finger only when the movement is more
        horizontal than vertical, and only after a touch start. */
    method TouchMove(x: int, y: int)
      requires Valid()
      modifies this`swipeOffset
      ensures Valid()
      ensures old(touchStartX).Some? && old(touchStartY).Some?
              && Abs(x - touchStartX.value) > Abs(y - touchStartY.value)
              ==> swipeOffset == x - touchStartX.value
      ensures !(touchStartX.Some? && touchStartY.Some? && Abs(x - touchStartX.value) > Abs(y - touchStartY.value))
              ==> swipeOffset == old(swipeOffset)
    {
      if touchStartX.None? || touchStartY.None? {
        return;
      }
      var diffX := x - touchStartX.value;
      var diffY := y - touchStartY.value;
      if Abs(diffX) > Abs(diffY) {
        swipeOffset := diffX;
      }
    }

    /** `handleTouchEnd`: a swipe right past the threshold goes back one card, a
        swipe left past it goes forward one card, or, on the last card, starts a
        fetch when more may come; then the offset and the touch start are reset. */
    method TouchEnd() returns (request: Option<RangeQuery>)
      requires Valid()
      modifies this`swiping, this`currentIndex, this`swipeOffset, this`touchStartX, this`touchStartY, this`loading
      ensures Valid()
      ensures !swiping && swipeOffset == 0 && touchStartX.None? && touchStartY.None?
      ensures old(swipeOffset) > SwipeThreshold ==>
        request.None? && loading == old(loading) &&
        currentIndex == if old(currentIndex) > 0 then old(currentIndex) - 1 else old(currentIndex)
      ensures old(swipeOffset) < -SwipeThreshold && old(currentIndex) < |events| - 1 ==>
        request.None? && loading == old(loading) && currentIndex == old(currentIndex) + 1
      ensures old(swipeOffset) < -SwipeThreshold && old(currentIndex) >= |events| - 1 ==>
        && currentIndex == old(currentIndex)
        && (hasMore && !old(loading) ==> loading && request == Some(PageQuery(page)))
        && (!(hasMore && !old(loading)) ==> request.None? && loading == old(loading))
      ensures -SwipeThreshold <= old(swipeOffset) <= SwipeThreshold ==>
        request.None? && loading == old(loading) && currentIndex == old(currentIndex)
    {
      swiping := false;
      request := None;
      if swipeOffset > SwipeThreshold {
        if currentIndex > 0 {
          currentIndex := currentIndex - 1;
        }
      } else if swipeOffset < -SwipeThreshold {
        if currentIndex < |events| - 1 {
          currentIndex := currentIndex + 1;
        } else if hasMore && !loading {
          request := BeginFetch();
        }
      }
      swipeOffset := 0;
      touchStartX, touchStartY := None, None;
    }

    /** The effect that loads the next page once the last loaded card (or no
        card) is on screen, while more may come and nothing is loading. */
    method AutoFetch() returns (request: Option<RangeQuery>)
      requires Valid()
      modifies this`loading
      ensures Valid()
      ensures currentIndex >= |events| - 1 && hasMore && !old(loading) ==>
        loading && request == Some(PageQuery(page))
      ensures !(currentIndex >= |events| - 1 && hasMore && !old(loading)) ==>
        request.None? && loading == old(loading)
    {
      request := None;
      if currentIndex >= |events| - 1 && hasMore && !loading {
        request := BeginFetch();
      }
    }
  }
}
