/** The paginated grocery list: its load step and what it renders (src/components/GroceryList.js). */
module GroceryList {
  import opened Wrappers
  import opened GroceryItem
  import opened GroceryFilters
  import App

  const ItemsPerPage := 12
  const LoadErrorMessage := "Failed to load grocery items. Please try again later."

  /** The query parameters of a catalog request; None is a parameter that is not sent. */
  datatype Query = Query(criteria: Option<Filters>, page: Option<int>, limit: Option<nat>)

  /** `fetchGroceryItems()`: no argument, so the default `{}` and no parameters at all. */
  const CatalogQuery := Query(None, None, None)

  /** `{...filters, page, limit: itemsPerPage}`: built by the load step, but never sent. */
  function PaginatedQuery(filters: Payload, page: int): (q: Query)
    ensures q.page == Some(page) && q.limit == Some(ItemsPerPage)
    ensures q.criteria == (if filters.Criteria? then Some(filters.filters) else None)
  {
    match filters
    case Criteria(f) => Query(Some(f), Some(page), Some(ItemsPerPage))
    case EmptyObject => Query(None, Some(page), Some(ItemsPerPage))
  }

  /** The query the load builds from the filters and page always differs from the one it sends. */
  lemma PaginatedQueryNotSent(filters: Payload, page: int)
    ensures PaginatedQuery(filters, page) != CatalogQuery
  {
  }

  /** What the backend answers: the items with a total count, or a failure. */
  datatype FetchOutcome = Fetched(items: seq<Item>, total: nat) | FetchFailed

  /** `Math.ceil(total / itemsPerPage)`: the fewest pages of 12 that hold `total` items. */
  function TotalPages(total: nat): (pages: nat)
    ensures pages * ItemsPerPage >= total
    ensures total > 0 ==> (pages - 1) * ItemsPerPage < total
    ensures total == 0 ==> pages == 0
  {
    (total + ItemsPerPage - 1) / ItemsPerPage
  }

  /** The page count is the least one that holds every item. */
  lemma TotalPagesLeast(total: nat, pages: nat)
    requires pages * ItemsPerPage >= total
    ensures TotalPages(total) <= pages
  {
  }

  /** `selectedItems.some(selected => selected.id === item.id)`. */
  function IsSelected(selected: seq<Item>, item: Item): (found: bool)
    ensures found <==> exists j :: 0 <= j < |selected| && selected[j].id == item.id
  {
    App.HasId(selected, item.id)
  }

  /** Pressing a card's button hands its item to the toggle, which flips that item's selected-ness. */
  lemma CardClickFlipsSelection(selected: seq<Item>, item: Item)
    ensures var card := RenderCard(item, IsSelected(selected, item));
            IsSelected(App.ToggleSelection(selected, card.onSelectArgument), item) == !IsSelected(selected, item)
  {
  }

  /** The four things the list can render. */
  datatype ListView =
    | Spinner
    | ErrorAlert(message: string)
    | NoItems
    | Grid(cards: seq<Card>, pageCount: nat, currentPage: int)

  /** The render function's branch order: spinner, then error, then empty, then the grid. */
  function RenderList(loading: bool, error: Option<string>, page: int, groceries: seq<Item>,
                      totalPages: nat, selected: seq<Item>): (view: ListView)
    ensures view.Spinner? <==> loading && page == 1
    ensures view.ErrorAlert? <==> !(loading && page == 1) && Truthy(error)
    ensures view.ErrorAlert? ==> view.message == error.value
    ensures view.NoItems? <==> !(loading && page == 1) && !Truthy(error) && |groceries| == 0
    ensures view.Grid? <==> !(loading && page == 1) && !Truthy(error) && |groceries| > 0
    ensures view.Grid? ==> view.pageCount == totalPages && view.currentPage == page
    ensures view.Grid? ==> |view.cards| == |groceries|
    ensures view.Grid? ==> forall i :: 0 <= i < |groceries| ==>
      view.cards[i].onSelectArgument == groceries[i]
      && (view.cards[i].buttonLabel == SelectedLabel <==> IsSelected(selected, groceries[i]))
  {
    if loading && page == 1 then Spinner
    else if Truthy(error) then ErrorAlert(error.value)
    else if |groceries| == 0 then NoItems
    else
      var cards := seq(|groceries|, i requires 0 <= i < |groceries| =>
        RenderCard(groceries[i], IsSelected(selected, groceries[i])));
      Grid(cards, totalPages, page)
  }

  /** The component's state cells. */
  class ListState {
    var groceries: seq<Item>
    var loading: bool
    var error: Option<string>
    var page: int
    var totalPages: nat

    /** The initial state, before the first load has run. */
    constructor ()
      ensures groceries == [] && loading && error == None && page == 1 && totalPages == 1
      ensures forall selected :: Render(selected).Spinner?
    {
      groceries := [];
      loading := true;
      error := None;
      page := 1;
      totalPages := 1;
    }

    /** What the list renders in the current state for the given selection. */
    function Render(selected: seq<Item>): ListView
      reads this
    {
      RenderList(loading, error, page, groceries, totalPages, selected)
    }

    /**
     * `loadGroceries`: raise `loading`, ask the backend, record the items and page count or the
     * error message, and lower `loading`. The request is the same whatever the filters and page.
     */
    method LoadGroceries(filters: Payload, backend: Query -> FetchOutcome)
      modifies this
      ensures !loading && page == old(page)
      ensures backend(CatalogQuery).Fetched? ==>
        groceries == backend(CatalogQuery).items
        && totalPages == TotalPages(backend(CatalogQuery).total)
        && error == None
      ensures backend(CatalogQuery).FetchFailed? ==>
        groceries == old(groceries) && totalPages == old(totalPages)
        && error == Some(LoadErrorMessage)
      ensures backend(CatalogQuery).FetchFailed? ==>
        forall selected :: Render(selected) == ErrorAlert(LoadErrorMessage)
    {
      loading := true;
      var paginatedFilters := PaginatedQuery(filters, page);
      var response := backend(CatalogQuery);
      if response.Fetched? {
        groceries := response.items;
        totalPages := TotalPages(response.total);
        error := None;
      } else {
        error := Some(LoadErrorMessage);
      }
      loading := false;
    }

    /** `handlePageChange`: moves to the requested page and changes nothing else. */
    method HandlePageChange(value: int)
      modifies this`page
      ensures page == value
    {
      page := value;
    }
  }

  /** While a later page reloads, the previous grid stays on screen instead of the spinner. */
  lemma ReloadOfLaterPageKeepsGrid(page: int, groceries: seq<Item>, totalPages: nat, selected: seq<Item>)
    requires page != 1 && |groceries| > 0
    ensures RenderList(true, None, page, groceries, totalPages, selected).Grid?
  {
  }
}
