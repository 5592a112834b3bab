/** The stand-alone filter panel: colour and size selections toggled on and off,
    a reset, and price inputs that push a new range to the owner of the range. */
module Filters {
  import opened Lists

  datatype Option<T> = None | Some(value: T)

  const Colors: seq<string> := ["Black", "White", "Red", "Blue", "Green", "Yellow", "Purple", "Orange"]
  const Sizes: seq<string> := ["7", "7.5", "8", "8.5", "9", "9.5", "10", "10.5", "11", "11.5", "12"]

  /** The range the reset requests. */
  const ResetRange: (int, int) := (0, 500)

  /** `parseInt(text) || fallback`: a number that did not parse (NaN) and 0 are
      both falsy, so both give the fallback; any other number is kept. */
  function OrElse(parsed: Option<int>, fallback: int): (r: int)
    ensures parsed.Some? && parsed.value != 0 ==> r == parsed.value
    ensures parsed.None? || parsed.value == 0 ==> r == fallback
  {
    match parsed
    case Some(v) => if v != 0 then v else fallback
    case None => fallback
  }

  /** The "Min" number input: `[parseInt(value) || 0, priceRange[1]]`. */
  function MinInput(range: (int, int), parsed: Option<int>): (r: (int, int))
    ensures r.1 == range.1
    ensures r.0 == 0 <==> parsed.None? || parsed.value == 0
    ensures parsed.Some? ==> r.0 == parsed.value
  {
    (OrElse(parsed, 0), range.1)
  }

  /** The "Max" number input: `[priceRange[0], parseInt(value) || 500]`. */
  function MaxInput(range: (int, int), parsed: Option<int>): (r: (int, int))
    ensures r.0 == range.0
    ensures parsed.None? || parsed.value == 0 ==> r.1 == 500
    ensures parsed.Some? && parsed.value != 0 ==> r.1 == parsed.value
  {
    (range.0, OrElse(parsed, 500))
  }

  /** The range slider: `[priceRange[0], parseInt(value)]`; a range input always parses. */
  function SliderInput(range: (int, int), value: int): (r: (int, int))
    ensures r.0 == range.0 && r.1 == value
  {
    (range.0, value)
  }

  /** The slider and the Max box agree on every non-zero value; on 0 they differ:
      the slider sets a maximum of 0, while the Max box requests 500. */
  lemma SliderVersusMaxInput(range: (int, int), value: int)
    ensures value != 0 ==> SliderInput(range, value) == MaxInput(range, Some(value))
    ensures SliderInput(range, 0) == (range.0, 0)
    ensures MaxInput(range, Some(0)) == (range.0, 500)
  {
  }

  /** The min input and the max input change different bounds, so they commute. */
  lemma BoundInputsCommute(range: (int, int), lo: Option<int>, hi: Option<int>)
    ensures MinInput(MaxInput(range, hi), lo) == MaxInput(MinInput(range, lo), hi)
  {
  }

  /** The panel's selections and the price range it shows. The range is owned by
      the panel's parent; the field stands for that state as updated through
      `onPriceRangeChange`. */
  class FilterPanel {
    var selectedColors: seq<string>
    var selectedSizes: seq<string>
    var priceRange: (int, int)

    /** Selections never hold the same value twice. */
    ghost predicate Valid()
      reads this
    {
      Distinct(selectedColors) && Distinct(selectedSizes)
    }

    constructor (range: (int, int))
      ensures Valid()
      ensures selectedColors == [] && selectedSizes == [] && priceRange == range
    {
      selectedColors := [];
      selectedSizes := [];
      priceRange := range;
    }

    /** `toggleColor`: select an unselected colour at the end, deselect a selected one. */
    method ToggleColor(color: string)
      requires Valid()
      modifies this`selectedColors
      ensures Valid()
      ensures selectedColors == Toggle(old(selectedColors), color)
      ensures color in selectedColors <==> color !in old(selectedColors)
      ensures forall c :: c != color ==> (c in selectedColors <==> c in old(selectedColors))
    {
      ToggleKeepsDistinct(selectedColors, color);
      selectedColors := Toggle(selectedColors, color);
    }

    /** `toggleSize`: the same rule for sizes. */
    method ToggleSize(size: string)
      requires Valid()
      modifies this`selectedSizes
      ensures Valid()
      ensures selectedSizes == Toggle(old(selectedSizes), size)
      ensures size in selectedSizes <==> size !in old(selectedSizes)
      ensures forall s :: s != size ==> (s in selectedSizes <==> s in old(selectedSizes))
    {
      ToggleKeepsDistinct(selectedSizes, size);
      selectedSizes := Toggle(selectedSizes, size);
    }

    /** `clearAllFilters`: request the full range and empty both selections. */
    method ClearAllFilters()
      modifies this
      ensures Valid()
      ensures priceRange == ResetRange && selectedColors == [] && selectedSizes == []
    {
      priceRange := ResetRange;
      selectedColors := [];
      selectedSizes := [];
    }

    method OnMinInput(parsed: Option<int>)
      modifies this`priceRange
      ensures priceRange == MinInput(old(priceRange), parsed)
    {
      priceRange := MinInput(priceRange, parsed);
    }

    method OnMaxInput(parsed: Option<int>)
      modifies this`priceRange
      ensures priceRange == MaxInput(old(priceRange), parsed)
    {
      priceRange := MaxInput(priceRange, parsed);
    }

    /** Both range sliders, in the overlay and in the static panel. */
    method OnSlider(value: int)
      modifies this`priceRange
      ensures priceRange == SliderInput(old(priceRange), value)
    {
      priceRange := SliderInput(priceRange, value);
    }
  }
}
