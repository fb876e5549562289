/** One grocery item and the card that displays it (src/components/GroceryItem.js). */
module GroceryItem {
  import opened Wrappers
  import opened Text

  /** A catalog entry. The price is a whole number of cents; None stands for null or undefined. */
  datatype Item = Item(
    id: int,
    name: string,
    itemType: string,
    chain: string,
    price: Option<nat>,
    unit: Option<string>)

  const PriceNotAvailable := "Price not available"
  const SelectedLabel := "Selected"
  const SelectLabel := "Select Item"

  /** The unit suffix: "/" and the unit when the unit is truthy, otherwise nothing. */
  function UnitSuffix(unit: Option<string>): (s: string)
    ensures Truthy(unit) ==> s == "/" + unit.value
    ensures !Truthy(unit) ==> s == ""
  {
    if Truthy(unit) then "/" + unit.value else ""
  }

  /** The text under the item name: the price to two decimals with its unit, or a fallback text. */
  function FormattedPrice(price: Option<nat>, unit: Option<string>): (text: string)
    ensures price.None? ==> text == PriceNotAvailable
    ensures price.Some? ==> |text| == |Fixed2(price.value)| + 1 + |UnitSuffix(unit)|
    ensures price.Some? ==> text[..|Fixed2(price.value)| + 1] == "$" + Fixed2(price.value)
    ensures price.Some? ==> ('/' in text <==> Truthy(unit))
    ensures price.Some? && Truthy(unit) ==> text[|text| - |unit.value| - 1..] == "/" + unit.value
    ensures price.Some? && !Truthy(unit) ==> text == "$" + Fixed2(price.value)
  {
    match price
    case None => PriceNotAvailable
    case Some(cents) =>
      var amount := "$" + Fixed2(cents);
      assert '/' !in amount by {
        forall i | 0 <= i < |amount| ensures amount[i] != '/' {
          if i > 0 { assert amount[i] == Fixed2(cents)[i - 1]; }
        }
      }
      assert amount + UnitSuffix(unit) == (amount + UnitSuffix(unit))[..|amount|] + UnitSuffix(unit);
      amount + UnitSuffix(unit)
  }

  /** A card with a known price never shows the fallback text, since its text starts with '$'. */
  lemma PresentPriceNeverFallback(cents: nat, unit: Option<string>)
    ensures FormattedPrice(Some(cents), unit) != PriceNotAvailable
  {
    var text := FormattedPrice(Some(cents), unit);
    assert text[0] == '$';
    assert PriceNotAvailable[0] == 'P';
  }

  /** The text of the card's button. */
  function ButtonLabel(isSelected: bool): (text: string)
    ensures text == SelectedLabel <==> isSelected
    ensures text == SelectLabel <==> !isSelected
  {
    if isSelected then SelectedLabel else SelectLabel
  }

  /** What a card shows, and the item its button hands to onSelect. */
  datatype Card = Card(
    title: string,
    typeChip: string,
    chainChip: string,
    priceLabel: string,
    highlighted: bool,
    buttonContained: bool,
    buttonLabel: string,
    onSelectArgument: Item)

  /** Renders an item given whether it is currently selected. */
  function RenderCard(item: Item, isSelected: bool): (card: Card)
    ensures card.onSelectArgument == item
    ensures card.title == item.name && card.typeChip == item.itemType && card.chainChip == item.chain
    ensures card.priceLabel == FormattedPrice(item.price, item.unit)
    ensures card.highlighted == isSelected && card.buttonContained == isSelected
    ensures card.buttonLabel == SelectedLabel <==> isSelected
  {
    Card(item.name, item.itemType, item.chain, FormattedPrice(item.price, item.unit),
         isSelected, isSelected, ButtonLabel(isSelected), item)
  }

  /** The selected-ness of a card can be read back from its button text. */
  lemma CardShowsSelection(item: Item, a: bool, b: bool)
    requires RenderCard(item, a).buttonLabel == RenderCard(item, b).buttonLabel
    ensures a == b
  {
  }
}
