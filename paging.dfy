/**
 * The ten-row display rule the two dashboard tables share: without "show all"
 * only the first ten rows are shown, a toggle button appears when there are
 * more than ten rows, and a "Mostrando 10 de N registros" message appears when
 * rows are hidden.
 */
module Paging {
  import opened Wrappers
  import opened Sequences

  const PageRows: nat := 10

  /** `showAll ? rows : rows.slice(0, 10)`. */
  function Displayed<T>(rows: seq<T>, showAll: bool): (r: seq<T>)
    ensures |r| <= |rows| && r == rows[..|r|]
    ensures showAll ==> |r| == |rows|
    ensures !showAll ==> |r| == if |rows| < PageRows then |rows| else PageRows
  {
    if showAll then rows else Take(rows, PageRows)
  }

  /** The toggle's caption: 'Mostrar solo 10' while everything is shown, 'Mostrar todos' otherwise. */
  datatype ToggleLabel = ShowOnlyTen | ShowEverything

  /** The toggle button, if any, and the count the "Mostrando 10 de N" message reports, if it is shown. */
  datatype Controls = Controls(toggle: Option<ToggleLabel>, message: Option<nat>)

  function ControlsOf(n: nat, showAll: bool): (c: Controls)
    ensures c.toggle.Some? <==> n > PageRows
    ensures c.toggle.Some? ==> (c.toggle.value == ShowOnlyTen <==> showAll)
    ensures c.message.Some? <==> !showAll && n > PageRows
    ensures c.message.Some? ==> c.message.value == n
  {
    Controls(if n > PageRows then Some(if showAll then ShowOnlyTen else ShowEverything) else None,
             if !showAll && n > PageRows then Some(n) else None)
  }

  /** The message is shown exactly when rows are hidden, and then ten of the N rows are shown. */
  lemma MessageIffHidden<T>(rows: seq<T>, showAll: bool)
    ensures ControlsOf(|rows|, showAll).message.Some? <==> |Displayed(rows, showAll)| < |rows|
    ensures ControlsOf(|rows|, showAll).message.Some? ==> |Displayed(rows, showAll)| == PageRows
  {
  }

  /** Without a toggle every row is shown, whatever the flag says. */
  lemma NoToggleShowsAll<T>(rows: seq<T>, showAll: bool)
    requires ControlsOf(|rows|, showAll).toggle.None?
    ensures Displayed(rows, showAll) == rows
  {
  }
}
