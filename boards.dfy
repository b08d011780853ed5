/**
 * What the tests, tasks and projects pages share: cards with a title, a
 * description, a subject and a status; a search over the three texts plus an
 * exact status filter; a status change on the card with a given id; and the
 * per-card status buttons, each disabled when the card already has its
 * target status.
 */
module Boards {
  import opened Text
  import opened Listing

  /** The fields of a test, task or project that the list logic reads. */
  datatype Card = Card(id: string, title: string, description: string, subject: string, status: string)

  predicate Mentions(c: Card, query: string) {
    ContainsCI(c.title, query) || ContainsCI(c.description, query) || ContainsCI(c.subject, query)
  }

  /** `if (searchQuery) filtered = filtered.filter(...)` */
  function Searched(cs: seq<Card>, query: string): seq<Card> {
    if query != "" then Filter(cs, (c: Card) => Mentions(c, query)) else cs
  }

  /** `if (selectedFilter !== "all") filtered = filtered.filter(c => c.status === selectedFilter)` */
  function WithStatus(cs: seq<Card>, selected: string): seq<Card> {
    if selected != "all" then Filter(cs, (c: Card) => c.status == selected) else cs
  }

  /** What the effect stores as the filtered list. */
  function Visible(cs: seq<Card>, query: string, selected: string): seq<Card> {
    WithStatus(Searched(cs, query), selected)
  }

  /** A card is visible exactly when it matches the search (if any) and the status filter (unless "all"). */
  lemma VisibleExact(cs: seq<Card>, query: string, selected: string)
    ensures forall c :: c in Visible(cs, query, selected) <==>
              c in cs && (query == "" || Mentions(c, query)) && (selected == "all" || c.status == selected)
    ensures query == "" && selected == "all" ==> Visible(cs, query, selected) == cs
  {
    FilterMembers(cs, (c: Card) => Mentions(c, query));
    FilterMembers(Searched(cs, query), (c: Card) => c.status == selected);
  }

  /** `handleStatusChange`: `map(c => c.id === id ? { ...c, status } : c)`. */
  function SetStatus(cs: seq<Card>, id: string, status: string): seq<Card> {
    MapWhere(cs, (c: Card) => c.id == id, (c: Card) => c.(status := status))
  }

  /** Only the cards with the id change, and only in their status. */
  lemma SetStatusOnlyMatching(cs: seq<Card>, id: string, status: string)
    ensures |SetStatus(cs, id, status)| == |cs|
    ensures forall i :: 0 <= i < |cs| ==>
              SetStatus(cs, id, status)[i] == if cs[i].id == id then cs[i].(status := status) else cs[i]
  {
  }

  /** Setting the same status twice is the same as setting it once. */
  lemma SetStatusIdempotent(cs: seq<Card>, id: string, status: string)
    ensures SetStatus(SetStatus(cs, id, status), id, status) == SetStatus(cs, id, status)
  {
    var once := SetStatus(cs, id, status);
    assert forall i :: 0 <= i < |once| ==> SetStatus(once, id, status)[i] == once[i];
  }

  /** A status button: its caption, the status it sets and whether it is disabled. */
  datatype Action = Action(caption: string, target: string, disabled: bool)

  /** The buttons of a card, one per (caption, target status), each `disabled: c.status === target`. */
  function StatusButtons(c: Card, buttons: seq<(string, string)>): (r: seq<Action>)
    ensures |r| == |buttons|
    ensures forall i :: 0 <= i < |r| ==> r[i].caption == buttons[i].0 && r[i].target == buttons[i].1
    ensures forall i :: 0 <= i < |r| ==> (r[i].disabled <==> c.status == buttons[i].1)
  {
    if buttons == [] then []
    else [Action(buttons[0].0, buttons[0].1, c.status == buttons[0].1)] + StatusButtons(c, buttons[1..])
  }

  /**
   * A button is disabled exactly when pressing it would leave the card as it
   * is: an enabled button always changes the card's status.
   */
  lemma DisabledExactlyWhenNoChange(cs: seq<Card>, i: nat, buttons: seq<(string, string)>, k: nat)
    requires i < |cs| && k < |buttons|
    ensures var a := StatusButtons(cs[i], buttons)[k];
            a.disabled <==> SetStatus(cs, cs[i].id, a.target)[i] == cs[i]
  {
    SetStatusOnlyMatching(cs, cs[i].id, buttons[k].1);
  }

  /**
   * The page state: the loaded cards, the filtered list and the two filter
   * inputs. `Refresh` is the effect that runs after each change of its inputs.
   */
  class Board {
    var items: seq<Card>
    var filtered: seq<Card>
    var searchQuery: string
    var selectedFilter: string

    constructor (loaded: seq<Card>)
      ensures items == loaded && filtered == loaded
      ensures searchQuery == "" && selectedFilter == "all"
    {
      items := loaded;
      filtered := loaded;
      searchQuery := "";
      selectedFilter := "all";
    }

    method SetInputs(query: string, selected: string)
      modifies this
      ensures searchQuery == query && selectedFilter == selected
      ensures items == old(items) && filtered == old(filtered)
    {
      searchQuery, selectedFilter := query, selected;
    }

    method Refresh()
      modifies this
      ensures filtered == Visible(items, searchQuery, selectedFilter)
      ensures items == old(items) && searchQuery == old(searchQuery) && selectedFilter == old(selectedFilter)
    {
      var result := Searched(items, searchQuery);
      result := WithStatus(result, selectedFilter);
      filtered := result;
    }

    method HandleStatusChange(id: string, status: string)
      modifies this
      ensures items == SetStatus(old(items), id, status)
      ensures filtered == old(filtered) && searchQuery == old(searchQuery) && selectedFilter == old(selectedFilter)
    {
      items := SetStatus(items, id, status);
    }
  }
}
