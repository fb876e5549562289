/** The filter-criteria record edited by the filter panel (src/components/GroceryFilters.js). */
module GroceryFilters {
  import opened Wrappers
  import opened Text

  /** The two ends of the price slider, `priceRange[0]` and `priceRange[1]`. */
  datatype PriceRange = PriceRange(low: int, high: int)

  /** The component's `filters` state. `type` is a Dafny keyword, hence `itemType`. */
  datatype Filters = Filters(itemType: string, chain: string, priceRange: PriceRange, searchTerm: string)

  /** What `onFilterChange` hands to the parent: the record itself, or the empty object `{}`. */
  datatype Payload = Criteria(filters: Filters) | EmptyObject

  /** The result of one handler: the new `filters` state and what, if anything, it emitted. */
  datatype Update = Update(filters: Filters, emitted: Option<Payload>)

  /** The text fields a `handleFilterChange(field)` handler can be bound to. */
  datatype Field = TypeField | ChainField | SearchField

  /** The chips of the active-filters panel, in display order. */
  datatype Chip = TypeChip | ChainChip | SearchChip | PriceChip

  const SliderMin := 0
  const SliderMax := 50

  /** The initial state, and the state a reset restores. */
  const Defaults := Filters("", "", PriceRange(SliderMin, SliderMax), "")

  /** The slider only produces ends within its `min`/`max`. */
  predicate InSliderBounds(r: PriceRange)
  {
    SliderMin <= r.low && r.high <= SliderMax
  }

  predicate Valid(f: Filters)
  {
    InSliderBounds(f.priceRange)
  }

  function Get(f: Filters, field: Field): string
  {
    match field
    case TypeField => f.itemType
    case ChainField => f.chain
    case SearchField => f.searchTerm
  }

  /** `handleFilterChange(field)(event)`: sets that one field to the event's value. */
  function HandleFilterChange(f: Filters, field: Field, value: string): (u: Update)
    ensures Get(u.filters, field) == value
    ensures forall other :: other != field ==> Get(u.filters, other) == Get(f, other)
    ensures u.filters.priceRange == f.priceRange
    ensures u.emitted.None?
    ensures Valid(f) ==> Valid(u.filters)
  {
    match field
    case TypeField => Update(f.(itemType := value), None)
    case ChainField => Update(f.(chain := value), None)
    case SearchField => Update(f.(searchTerm := value), None)
  }

  /** `handlePriceChange`: replaces the price range only. */
  function HandlePriceChange(f: Filters, newValue: PriceRange): (u: Update)
    requires InSliderBounds(newValue)
    ensures u.filters.priceRange == newValue
    ensures forall field :: Get(u.filters, field) == Get(f, field)
    ensures u.emitted.None?
    ensures Valid(u.filters)
  {
    Update(f.(priceRange := newValue), None)
  }

  /** `applyFilters`: hands the current record to the parent and keeps it. */
  function ApplyFilters(f: Filters): (u: Update)
    ensures u.filters == f
    ensures u.emitted.Some? && u.emitted.value.Criteria? && u.emitted.value.filters == f
  {
    Update(f, Some(Criteria(f)))
  }

  /** `resetFilters`: restores the defaults but hands `{}`, not the default record, to the parent. */
  function ResetFilters(f: Filters): (u: Update)
    ensures u.filters == Defaults
    ensures u.emitted == Some(EmptyObject)
    ensures !AnyActive(u.filters)
  {
    Update(Defaults, Some(EmptyObject))
  }

  /** A reset and an apply of the very same default record reach the parent differently. */
  lemma ResetDiffersFromApplyDefaults(f: Filters)
    ensures ResetFilters(f).filters == ApplyFilters(Defaults).filters
    ensures ResetFilters(f).emitted != ApplyFilters(Defaults).emitted
  {
  }

  /** The condition under which the active-filters panel is rendered. */
  predicate AnyActive(f: Filters)
  {
    f.itemType != "" || f.chain != "" || f.searchTerm != ""
    || f.priceRange.low > SliderMin || f.priceRange.high < SliderMax
  }

  /** Each chip's own condition. */
  predicate ChipShown(f: Filters, c: Chip)
  {
    match c
    case TypeChip => f.itemType != ""
    case ChainChip => f.chain != ""
    case SearchChip => f.searchTerm != ""
    case PriceChip => f.priceRange.low > SliderMin || f.priceRange.high < SliderMax
  }

  function ChipLabel(f: Filters, c: Chip): string
  {
    match c
    case TypeChip => "Type: " + f.itemType
    case ChainChip => "Chain: " + f.chain
    case SearchChip => "Search: " + f.searchTerm
    case PriceChip =>
      "Price: $" + IntToString(f.priceRange.low) + " - $" + IntToString(f.priceRange.high)
  }

  /** A chip as displayed: which one it is and its label. */
  datatype ChipView = ChipView(chip: Chip, text: string)

  /** All chips, in the order the panel lists them. */
  const ChipOrder := [TypeChip, ChainChip, SearchChip, PriceChip]

  lemma ChipOrderComplete()
    ensures forall c :: c in ChipOrder
  {
    forall c ensures c in ChipOrder {
      if c.TypeChip? { assert ChipOrder[0] == c; }
      else if c.ChainChip? { assert ChipOrder[1] == c; }
      else if c.SearchChip? { assert ChipOrder[2] == c; }
      else { assert ChipOrder[3] == c; }
    }
  }

  /** The views of the chips of `cs` whose condition holds, in the order of `cs`. */
  function ViewChips(f: Filters, cs: seq<Chip>): (vs: seq<ChipView>)
    ensures forall c :: (c in cs && ChipShown(f, c)) <==> ChipView(c, ChipLabel(f, c)) in vs
    ensures forall v :: v in vs ==> v.text == ChipLabel(f, v.chip)
    decreases |cs|
  {
    if |cs| == 0 then []
    else
      var head := if ChipShown(f, cs[0]) then [ChipView(cs[0], ChipLabel(f, cs[0]))] else [];
      var rest := ViewChips(f, cs[1..]);
      assert forall c :: c in cs <==> c == cs[0] || c in cs[1..];
      head + rest
  }

  /** The active-filters panel: absent, or the shown chips in display order. */
  function ActiveFiltersPanel(f: Filters): (panel: Option<seq<ChipView>>)
    ensures panel.Some? <==> AnyActive(f)
    ensures panel.Some? ==> |panel.value| > 0
    ensures panel.Some? ==> forall c :: ChipShown(f, c) <==> ChipView(c, ChipLabel(f, c)) in panel.value
    ensures panel.Some? ==> forall v :: v in panel.value ==> v.text == ChipLabel(f, v.chip)
  {
    if !AnyActive(f) then None
    else
      var chips := ViewChips(f, ChipOrder);
      ChipOrderComplete();
      ActiveIffSomeChip(f);
      Some(chips)
  }

  /** A chip's `onDelete`: clears exactly that chip's field; the price chip restores [0, 50]. */
  function DeleteChip(f: Filters, c: Chip): (u: Update)
    ensures !ChipShown(u.filters, c)
    ensures c != TypeChip ==> u.filters.itemType == f.itemType
    ensures c != ChainChip ==> u.filters.chain == f.chain
    ensures c != SearchChip ==> u.filters.searchTerm == f.searchTerm
    ensures c != PriceChip ==> u.filters.priceRange == f.priceRange
    ensures c == PriceChip ==> u.filters.priceRange == Defaults.priceRange
    ensures forall d :: d != c ==> ChipShown(u.filters, d) == ChipShown(f, d)
    ensures u.emitted.None?
    ensures Valid(f) ==> Valid(u.filters)
  {
    match c
    case TypeChip => Update(f.(itemType := ""), None)
    case ChainChip => Update(f.(chain := ""), None)
    case SearchChip => Update(f.(searchTerm := ""), None)
    case PriceChip => Update(f.(priceRange := Defaults.priceRange), None)
  }

  lemma DefaultsInactive()
    ensures !AnyActive(Defaults) && Valid(Defaults)
  {
  }

  /** Within the slider's bounds, the panel is hidden exactly for the default record. */
  lemma InactiveIffDefaults(f: Filters)
    requires Valid(f)
    ensures !AnyActive(f) <==> f == Defaults
  {
  }

  /** The panel is shown exactly when at least one chip is: the panel is never empty. */
  lemma ActiveIffSomeChip(f: Filters)
    ensures AnyActive(f) <==> exists c :: ChipShown(f, c)
  {
    if f.itemType != "" { assert ChipShown(f, TypeChip); }
    else if f.chain != "" { assert ChipShown(f, ChainChip); }
    else if f.searchTerm != "" { assert ChipShown(f, SearchChip); }
    else if AnyActive(f) { assert ChipShown(f, PriceChip); }
  }

  /** Deleting every chip, in panel order, brings back the default record. */
  lemma DeleteAllChipsResets(f: Filters)
    ensures var g := DeleteChip(DeleteChip(DeleteChip(DeleteChip(f, TypeChip).filters,
                       ChainChip).filters, SearchChip).filters, PriceChip).filters;
            g == Defaults && !AnyActive(g)
  {
  }
}
