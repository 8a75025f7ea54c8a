// The selection and the scroll position of a list that is longer than the page it
// is shown on; the menus and the file browser move through their lists this way.
module ScrollWindow {

  datatype Window = Window(selected: nat, scroll: nat)

  /** `wrap`: the directional button goes round at the ends, a held stick stops there. */
  datatype Move = Down(wrap: bool) | Up(wrap: bool)

  function Moved(w: Window, count: nat, page: nat, move: Move): Window
    requires count > 0
  {
    match move
    case Down(wrap) =>
      var next := w.selected + 1;
      if next >= count then (if wrap then Window(0, 0) else w)
      else if next >= w.scroll + page / 2 && count > w.scroll + page then Window(next, w.scroll + 1)
      else Window(next, w.scroll)
    case Up(wrap) =>
      if w.selected == 0 then
        if wrap then Window(count - 1, if count >= page then count - page else 0) else w
      else
        var next := w.selected - 1;
        if next < w.scroll + page / 2 && w.scroll > 0 then Window(next, w.scroll - 1) else Window(next, w.scroll)
  }

  function MovedAll(w: Window, count: nat, page: nat, moves: seq<Move>): Window
    requires count > 0
  {
    if moves == [] then w else Moved(MovedAll(w, count, page, moves[..|moves| - 1]), count, page, moves[|moves| - 1])
  }

  /** The last scroll position. */
  function Bottom(count: nat, page: nat): nat { if count > page then count - page else 0 }

  /** The selection is on the page, and the page shows no more of nothing than it must. */
  predicate Visible(w: Window, count: nat, page: nat)
  {
    w.selected < count && w.scroll <= Bottom(count, page) && w.scroll <= w.selected < w.scroll + page
  }

  /** Away from the ends the selection stays on the two middle lines. */
  predicate Centred(w: Window, count: nat, page: nat)
  {
    0 < w.scroll < Bottom(count, page) ==>
      w.selected == w.scroll + page / 2 - 1 || w.selected == w.scroll + page / 2
  }

  /** At either end of a long list the selection does not go past the middle lines, or the page would have moved. */
  predicate AtEnds(w: Window, count: nat, page: nat)
  {
    count > page ==>
      (w.scroll == 0 ==> w.selected <= page / 2) &&
      (w.scroll == count - page ==> w.selected + 1 >= w.scroll + page / 2)
  }

  predicate Settled(w: Window, count: nat, page: nat)
  {
    Visible(w, count, page) && Centred(w, count, page) && AtEnds(w, count, page)
  }

  /** A move goes one entry on; at an end a button goes round to the other end, a held stick stays. */
  lemma MovesByOne(w: Window, count: nat, page: nat, wrap: bool)
    requires w.selected < count
    ensures Moved(w, count, page, Down(wrap)).selected ==
      if w.selected + 1 < count then w.selected + 1 else if wrap then 0 else w.selected
    ensures Moved(w, count, page, Up(wrap)).selected ==
      if w.selected > 0 then w.selected - 1 else if wrap then count - 1 else 0
    ensures w.selected + 1 == count ==> Moved(w, count, page, Down(false)) == w
    ensures w.selected == 0 ==> Moved(w, count, page, Up(false)) == w
  {
  }

  lemma MoveKeeps(w: Window, count: nat, page: nat, move: Move)
    requires count > 0 && page > 0 && Settled(w, count, page)
    ensures Settled(Moved(w, count, page, move), count, page)
  {
  }

  /**
   * From a fresh list, every sequence of moves, wrapping or not, keeps the selection
   * on the page and, away from the ends, on its two middle lines.
   */
  lemma {:induction false} EveryMoveKeeps(count: nat, page: nat, moves: seq<Move>)
    requires count > 0 && page > 0
    ensures Settled(MovedAll(Window(0, 0), count, page, moves), count, page)
  {
    if moves != [] {
      EveryMoveKeeps(count, page, moves[..|moves| - 1]);
      MoveKeeps(MovedAll(Window(0, 0), count, page, moves[..|moves| - 1]), count, page, moves[|moves| - 1]);
    }
  }

  /** The two buttons undo each other in the selection, round the ends included. */
  lemma UpUndoesDown(w: Window, count: nat, page: nat)
    requires count > 0 && page > 0 && Settled(w, count, page)
    ensures Moved(Moved(w, count, page, Down(true)), count, page, Up(true)).selected == w.selected
    ensures Moved(Moved(w, count, page, Up(true)), count, page, Down(true)).selected == w.selected
  {
  }

  /** Going down a whole list, or up it, shows every entry once and comes back to the first. */
  lemma {:induction false} DownSelectsEach(count: nat, page: nat, k: nat)
    requires 0 < count && k <= count
    ensures MovedAll(Window(0, 0), count, page, Downs(k)).selected == if k < count then k else 0
  {
    if k > 0 {
      DownSelectsEach(count, page, k - 1);
      assert Downs(k)[..k - 1] == Downs(k - 1);
    }
  }

  function Downs(k: nat): (r: seq<Move>)
    ensures |r| == k
  {
    seq(k, i => Down(true))
  }
}
