/**
 * The announcements page: a search over title, content and author, a type
 * filter and an unread filter, then an ordering with pinned announcements
 * first and newest first within each group; marking as read and pinning
 * rewrite the matching announcement.
 */
module Announcements {
  import opened Wrappers
  import opened Text
  import opened Listing

  /** An announcement; `createdAt` is the creation instant as a number (what `new Date(createdAt).getTime()` gives). */
  datatype Announcement = Announcement(
    id: string,
    title: string,
    content: string,
    kind: string,
    author: string,
    createdAt: int,
    readBy: seq<string>,
    isPinned: bool)

  /** The reader the unread filter and "mark as read" use. */
  const CurrentReader: string := "student1"

  // ---------------------------------------------------------------------------
  // The filter-and-sort effect

  predicate Mentions(a: Announcement, query: string) {
    ContainsCI(a.title, query) || ContainsCI(a.content, query) || ContainsCI(a.author, query)
  }

  /** `if (searchQuery) filtered = filtered.filter(...)` */
  function Searched(xs: seq<Announcement>, query: string): seq<Announcement> {
    if query != "" then Filter(xs, (a: Announcement) => Mentions(a, query)) else xs
  }

  /** `if (selectedFilter !== "all") filtered = filtered.filter(a => a.type === selectedFilter)` */
  function OfKind(xs: seq<Announcement>, selected: string): seq<Announcement> {
    if selected != "all" then Filter(xs, (a: Announcement) => a.kind == selected) else xs
  }

  /** `if (showOnlyUnread) filtered = filtered.filter(a => !a.readBy.includes("student1"))` */
  function UnreadOnly(xs: seq<Announcement>, only: bool): seq<Announcement> {
    if only then Filter(xs, (a: Announcement) => CurrentReader !in a.readBy) else xs
  }

  /** The comparator: pinned before unpinned, then the later `createdAt` first. */
  function PinnedThenNewest(): (Announcement, Announcement) -> bool {
    (a: Announcement, b: Announcement) => (a.isPinned && !b.isPinned) || (a.isPinned == b.isPinned && b.createdAt < a.createdAt)
  }

  lemma PinnedThenNewestIsStrictWeak()
    ensures StrictWeakOrder(PinnedThenNewest())
  {
  }

  /** What the effect stores in `filteredAnnouncements`. */
  function Displayed(xs: seq<Announcement>, query: string, selected: string, only: bool): seq<Announcement> {
    PinnedThenNewestIsStrictWeak();
    SortBy(UnreadOnly(OfKind(Searched(xs, query), selected), only), PinnedThenNewest())
  }

  /** No filter is active, so `filtered` is the state array itself and the sort reorders it too. */
  predicate NoFilter(query: string, selected: string, only: bool) {
    query == "" && selected == "all" && !only
  }

  lemma SearchedExact(xs: seq<Announcement>, query: string)
    ensures forall a :: a in Searched(xs, query) <==> a in xs && (query == "" || Mentions(a, query))
  {
    FilterMembers(xs, (a: Announcement) => Mentions(a, query));
  }

  lemma OfKindExact(xs: seq<Announcement>, selected: string)
    ensures forall a :: a in OfKind(xs, selected) <==> a in xs && (selected == "all" || a.kind == selected)
  {
    FilterMembers(xs, (a: Announcement) => a.kind == selected);
  }

  lemma UnreadOnlyExact(xs: seq<Announcement>, only: bool)
    ensures forall a :: a in UnreadOnly(xs, only) <==> a in xs && (!only || CurrentReader !in a.readBy)
  {
    FilterMembers(xs, (a: Announcement) => CurrentReader !in a.readBy);
  }

  /** An announcement is displayed exactly when it passes every active filter; the display is a permutation of those. */
  lemma DisplayedExact(xs: seq<Announcement>, query: string, selected: string, only: bool)
    ensures forall a :: a in Displayed(xs, query, selected, only) <==>
              a in xs && (query == "" || Mentions(a, query)) && (selected == "all" || a.kind == selected)
              && (!only || CurrentReader !in a.readBy)
    ensures NoFilter(query, selected, only) ==> multiset(Displayed(xs, query, selected, only)) == multiset(xs)
  {
    var u := UnreadOnly(OfKind(Searched(xs, query), selected), only);
    var d := Displayed(xs, query, selected, only);
    SearchedExact(xs, query);
    OfKindExact(Searched(xs, query), selected);
    UnreadOnlyExact(OfKind(Searched(xs, query), selected), only);
    assert multiset(d) == multiset(u);
    forall a ensures a in d <==> a in u {
      assert a in multiset(d) <==> a in multiset(u);
    }
  }

  /** Pinned announcements come first, and within each group the newer comes first. */
  lemma DisplayedPinnedFirst(xs: seq<Announcement>, query: string, selected: string, only: bool)
    ensures var r := Displayed(xs, query, selected, only);
            forall i, j :: 0 <= i < j < |r| ==>
              (r[j].isPinned ==> r[i].isPinned)
              && (r[i].isPinned == r[j].isPinned ==> r[j].createdAt <= r[i].createdAt)
  {
    var r := Displayed(xs, query, selected, only);
    assert Sorted(r, PinnedThenNewest());
  }

  // ---------------------------------------------------------------------------
  // The handlers' rewrites

  /** `handleMarkAsRead`: append the reader to `readBy` of the matching announcement (no de-duplication). */
  function MarkAsRead(xs: seq<Announcement>, id: string): seq<Announcement> {
    MapWhere(xs, (a: Announcement) => a.id == id, (a: Announcement) => a.(readBy := a.readBy + [CurrentReader]))
  }

  /** `handleTogglePin`: flip `isPinned` of the matching announcement. */
  function TogglePin(xs: seq<Announcement>, id: string): seq<Announcement> {
    MapWhere(xs, (a: Announcement) => a.id == id, (a: Announcement) => a.(isPinned := !a.isPinned))
  }

  /** Marking as read grows `readBy` of each match by exactly one reader and changes nothing else. */
  lemma MarkAsReadAppends(xs: seq<Announcement>, id: string)
    ensures |MarkAsRead(xs, id)| == |xs|
    ensures forall i :: 0 <= i < |xs| && xs[i].id == id ==>
              |MarkAsRead(xs, id)[i].readBy| == |xs[i].readBy| + 1
              && multiset(MarkAsRead(xs, id)[i].readBy)[CurrentReader] == multiset(xs[i].readBy)[CurrentReader] + 1
              && MarkAsRead(xs, id)[i].(readBy := xs[i].readBy) == xs[i]
    ensures forall i :: 0 <= i < |xs| && xs[i].id != id ==> MarkAsRead(xs, id)[i] == xs[i]
  {
  }

  /** Pinning flips the flag of each match and changes nothing else. */
  lemma TogglePinFlips(xs: seq<Announcement>, id: string)
    ensures |TogglePin(xs, id)| == |xs|
    ensures forall i :: 0 <= i < |xs| ==>
              TogglePin(xs, id)[i] == if xs[i].id == id then xs[i].(isPinned := !xs[i].isPinned) else xs[i]
  {
  }

  /** Toggling the pin twice restores the list. */
  lemma TogglePinTwice(xs: seq<Announcement>, id: string)
    ensures TogglePin(TogglePin(xs, id), id) == xs
  {
    var once := TogglePin(xs, id);
    var twice := TogglePin(once, id);
    assert forall i :: 0 <= i < |xs| ==> twice[i] == xs[i];
  }

  /** The page's state: the loaded list, the displayed list and the three filter inputs. */
  class AnnouncementsPage {
    var announcements: seq<Announcement>
    var filtered: seq<Announcement>
    var searchQuery: string
    var selectedFilter: string
    var showOnlyUnread: bool

    /** `loadAnnouncements` with the loaded list. */
    constructor (loaded: seq<Announcement>)
      ensures announcements == loaded && filtered == loaded
      ensures searchQuery == "" && selectedFilter == "all" && !showOnlyUnread
    {
      announcements := loaded;
      filtered := loaded;
      searchQuery := "";
      selectedFilter := "all";
      showOnlyUnread := false;
    }

    /**
     * The effect that runs after each change of its four inputs. `filtered.sort`
     * sorts in place: with no filter active `filtered` is the state array, so
     * the stored announcements are reordered as well.
     */
    method ApplyFilters()
      modifies this
      ensures filtered == Displayed(old(announcements), searchQuery, selectedFilter, showOnlyUnread)
      ensures announcements == if NoFilter(searchQuery, selectedFilter, showOnlyUnread) then filtered else old(announcements)
      ensures searchQuery == old(searchQuery) && selectedFilter == old(selectedFilter) && showOnlyUnread == old(showOnlyUnread)
    {
      var result := Searched(announcements, searchQuery);
      result := OfKind(result, selectedFilter);
      result := UnreadOnly(result, showOnlyUnread);
      PinnedThenNewestIsStrictWeak();
      result := SortBy(result, PinnedThenNewest());
      if NoFilter(searchQuery, selectedFilter, showOnlyUnread) {
        announcements := result;
      }
      filtered := result;
    }

    /** The search box, the type filter bar and the unread checkbox. */
    method SetInputs(query: string, selected: string, only: bool)
      modifies this
      ensures searchQuery == query && selectedFilter == selected && showOnlyUnread == only
      ensures announcements == old(announcements) && filtered == old(filtered)
    {
      searchQuery, selectedFilter, showOnlyUnread := query, selected, only;
    }

    method HandleMarkAsRead(id: string)
      modifies this
      ensures announcements == MarkAsRead(old(announcements), id)
      ensures filtered == old(filtered) && searchQuery == old(searchQuery)
      ensures selectedFilter == old(selectedFilter) && showOnlyUnread == old(showOnlyUnread)
    {
      announcements := MarkAsRead(announcements, id);
    }

    method HandleTogglePin(id: string)
      modifies this
      ensures announcements == TogglePin(old(announcements), id)
      ensures filtered == old(filtered) && searchQuery == old(searchQuery)
      ensures selectedFilter == old(selectedFilter) && showOnlyUnread == old(showOnlyUnread)
    {
      announcements := TogglePin(announcements, id);
    }
  }
}
