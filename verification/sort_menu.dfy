/** `SortDropdownMenu`: two menu items that rewrite the sort-order string
    held by the list state. */
module SortMenu {

  const AlfaAsc: string := "Alfa asc"
  const AlfaDesc: string := "Alfa desc"
  const FechaAsc: string := "Fecha asc"
  const FechaDesc: string := "Fecha desc"

  datatype MenuItem = Alfa | Fecha

  datatype Arrow = North | South

  /** The "Alfabético" item's `onClick`. */
  function AlfaClick(order: string): (r: string)
    ensures r == AlfaAsc || r == AlfaDesc
    ensures r == AlfaDesc <==> order == AlfaAsc
  {
    if order == AlfaAsc then AlfaDesc else AlfaAsc
  }

  /** The "Fecha" item's `onClick`. */
  function FechaClick(order: string): (r: string)
    ensures r == FechaAsc || r == FechaDesc
    ensures r == FechaAsc <==> order == FechaDesc
  {
    if order == FechaDesc then FechaAsc else FechaDesc
  }

  /** The trailing arrows: each item points north only in its own
      "primary" order. */
  function AlfaArrow(order: string): Arrow {
    if order == AlfaAsc then North else South
  }

  function FechaArrow(order: string): Arrow {
    if order == FechaDesc then North else South
  }

  /** The Alfa item shows North exactly when pressing it would give
      "Alfa desc", and after a press the arrow always flips when the list was
      already sorted alphabetically. */
  lemma AlfaArrowTracksClick(order: string)
    ensures AlfaArrow(order) == North <==> AlfaClick(order) == AlfaDesc
    ensures order in {AlfaAsc, AlfaDesc} ==> AlfaArrow(AlfaClick(order)) != AlfaArrow(order)
  {
  }

  /** One press of a shown item. The Fecha item exists only when
      `showDateOptions` is set. */
  function Press(order: string, item: MenuItem): string {
    match item
    case Alfa => AlfaClick(order)
    case Fecha => FechaClick(order)
  }

  /** A sequence of presses on the menu. */
  function Run(order: string, presses: seq<MenuItem>): (r: string)
    ensures |presses| > 0 ==> r in {AlfaAsc, AlfaDesc, FechaAsc, FechaDesc}
    decreases |presses|
  {
    if |presses| == 0 then order else Run(Press(order, presses[0]), presses[1..])
  }

  /** The presses possible on a menu built with `showDateOptions`. */
  predicate Shown(showDateOptions: bool, presses: seq<MenuItem>) {
    showDateOptions || forall i :: 0 <= i < |presses| ==> presses[i] == Alfa
  }

  /** Without the date item, a list sorted alphabetically stays sorted
      alphabetically whatever is pressed. */
  lemma {:induction false} AlfaOnlyStaysAlphabetic(order: string, presses: seq<MenuItem>)
    requires order in {AlfaAsc, AlfaDesc}
    requires Shown(false, presses)
    ensures Run(order, presses) in {AlfaAsc, AlfaDesc}
    decreases |presses|
  {
    if |presses| > 0 {
      assert presses[0] == Alfa;
      AlfaOnlyStaysAlphabetic(AlfaClick(order), presses[1..]);
    }
  }

  /** An even number of Alfa presses from "Alfa asc" ends at "Alfa asc",
      an odd number at "Alfa desc". */
  lemma {:induction false} AlfaParity(presses: seq<MenuItem>)
    requires Shown(false, presses)
    ensures Run(AlfaAsc, presses) == if |presses| % 2 == 0 then AlfaAsc else AlfaDesc
    decreases |presses|
  {
    if |presses| > 0 {
      assert presses[0] == Alfa;
      if |presses| > 1 {
        assert presses[1] == Alfa;
        assert presses[1..][1..] == presses[2..];
        AlfaParity(presses[2..]);
      } else {
        assert presses[1..] == [];
      }
    }
  }
}
