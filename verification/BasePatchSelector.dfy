// The menu element that picks a base title or a patch: an option index that left and
// right move, and a cursor into the linked list of titles that has to keep up with it.
module BasePatchSelector {
  import opened TitleList

  /** The title and the file system section that the list is made for. */
  datatype Target = Target(metaType: MetaType, version: nat, hasSparseLayer: bool)

  /** Whether a title in the list can go with the target. */
  predicate Eligible(t: Target, version: nat)
  {
    ((t.metaType.Application? || t.metaType.AddOnContent?) && (!t.hasSparseLayer || version >= t.version)) ||
    ((t.metaType.Patch? || t.metaType.DataPatch?) && version <= t.version)
  }

  /** Among the first `m` titles, option `k` names an eligible one of the highest eligible version, and the last such. */
  predicate Best(t: Target, nodes: seq<TitleInfo>, m: nat, k: nat)
    requires 0 < k <= m <= |nodes|
  {
    Eligible(t, nodes[k - 1].version) &&
    (forall j :: 0 <= j < m && Eligible(t, nodes[j].version) ==> nodes[j].version <= nodes[k - 1].version) &&
    (forall j :: k <= j < m && Eligible(t, nodes[j].version) ==> nodes[j].version < nodes[k - 1].version)
  }

  predicate NoneEligible(t: Target, nodes: seq<TitleInfo>, m: nat)
    requires m <= |nodes|
  {
    forall j :: 0 <= j < m ==> !Eligible(t, nodes[j].version)
  }

  /** `best` is the highest of the versions that are wanted, and there is one exactly if `found`. */
  ghost predicate HighestOf(nodes: seq<TitleInfo>, wanted: nat -> bool, found: bool, best: nat)
  {
    (found <==> exists j :: 0 <= j < |nodes| && wanted(nodes[j].version)) &&
    (found ==> wanted(best) && forall j :: 0 <= j < |nodes| && wanted(nodes[j].version) ==> nodes[j].version <= best)
  }

  /**
   * What is picked, type by type: for a base title or add-on content the highest
   * version of all, or with a sparse layer the highest that is not older than it; for
   * a patch the highest that is not newer; for anything else nothing.
   */
  lemma PickedTitle(t: Target, nodes: seq<TitleInfo>, selected: nat)
    requires selected <= |nodes| && (selected == 0 <==> NoneEligible(t, nodes, |nodes|))
    requires selected > 0 ==> Best(t, nodes, |nodes|, selected)
    ensures var best := if selected > 0 then nodes[selected - 1].version else 0;
      match t.metaType
      case Application => HighestOf(nodes, v => t.hasSparseLayer ==> v >= t.version, selected > 0, best)
      case AddOnContent => HighestOf(nodes, v => t.hasSparseLayer ==> v >= t.version, selected > 0, best)
      case Patch => HighestOf(nodes, v => v <= t.version, selected > 0, best)
      case DataPatch => HighestOf(nodes, v => v <= t.version, selected > 0, best)
      case OtherType(_) => selected == 0
  {
  }

  datatype Press = Left | Right

  /** Where the option index goes; option 0 is "no title" and option `n` the last title. */
  function Moved(selected: nat, n: nat, press: Press): nat
  {
    match press
    case Left => if selected == 0 then 0 else selected - 1
    case Right => if selected < n then selected + 1 else selected
  }

  class Selector {
    var selected: nat
    var options: nat                 // how many options there are, "no title" included
    var current: TitleInfo?
    var backup: TitleInfo?
    ghost var Nodes: seq<TitleInfo>

    constructor ()
      ensures Valid() && selected == 0 && Nodes == []
    {
      selected, options, current, backup, Nodes := 0, 1, null, null, [];
    }

    /**
     * Option k > 0 means the k-th node.  At option 0 the head of the list is either
     * put away in the backup, or still in the cursor because nothing was eligible.
     */
    ghost predicate Valid()
      reads this, Nodes
    {
      Linked(Nodes) && options == |Nodes| + 1 && selected <= |Nodes| &&
      (selected > 0 ==> current == Nodes[selected - 1]) &&
      (selected == 0 && Nodes != [] ==>
         (current == null && backup == Nodes[0]) || (current == Nodes[0] && backup == null)) &&
      (selected == 0 && Nodes == [] ==> current == null && backup == null)
    }

    /** Fill the list from its head and pick the best title. */
    method Update(head: TitleInfo?, target: Target, ghost nodes: seq<TitleInfo>)
      requires Linked(nodes) && head == At(nodes, 0)
      modifies this
      ensures Valid() && Nodes == nodes
      ensures selected == 0 <==> NoneEligible(target, nodes, |nodes|)
      ensures selected > 0 ==> Best(target, nodes, |nodes|, selected)
      ensures selected == 0 ==> current == head
    {
      selected, options, current, backup := 0, 1, head, null;
      Nodes := nodes;
      var cur, idx, selectedVersion := head, 1, 0;
      while cur != null
        invariant 1 <= idx <= |nodes| + 1 && cur == At(nodes, idx - 1) && Nodes == nodes && selected < idx
        invariant selected == 0 ==> current == head && NoneEligible(target, nodes, idx - 1) && selectedVersion == 0
        invariant selected > 0 ==>
          current == nodes[selected - 1] && selectedVersion == current.version && Best(target, nodes, idx - 1, selected)
        decreases |nodes| - idx
      {
        if cur.version >= selectedVersion && Eligible(target, cur.version) {
          selected, selectedVersion, current := idx, cur.version, cur;
        }
        cur := cur.next;
        idx := idx + 1;
      }
      options := idx;
      backup := if selected > 0 then current else null;
    }

    method PressRight()
      requires Valid()
      modifies this
      ensures Valid() && Nodes == old(Nodes) && selected == Moved(old(selected), |Nodes|, Right)
    {
      if selected == 0 && backup != null {
        current, backup := backup, null;
      } else if selected > 0 && current != null && current.next != null {
        current := current.next;
      }
      selected := selected + 1;
      if selected >= options {
        selected := selected - 1;
      }
    }

    method PressLeft()
      requires Valid()
      modifies this
      ensures Valid() && Nodes == old(Nodes) && selected == Moved(old(selected), |Nodes|, Left)
      ensures selected == 0 ==> current == null
    {
      selected := if selected == 0 then 0 else selected - 1;
      if selected == 0 && current != null {
        backup, current := current, null;
      } else if selected > 0 && current != null && current.previous != null {
        current := current.previous;
      }
    }

    /** Any sequence of presses leaves the cursor where the option says. */
    method PressAll(presses: seq<Press>)
      requires Valid()
      modifies this
      ensures Valid() && Nodes == old(Nodes) && selected == MovedAll(old(selected), |Nodes|, presses)
      ensures selected > 0 ==> current == Nodes[selected - 1]
      ensures selected == 0 && Left in presses ==> current == null
    {
      for i := 0 to |presses|
        invariant Valid() && Nodes == old(Nodes) && selected == MovedAll(old(selected), |Nodes|, presses[..i])
        invariant selected == 0 && Left in presses[..i] ==> current == null
      {
        MovedOnce(old(selected), |Nodes|, presses, i);
        if presses[i].Left? {
          PressLeft();
        } else {
          PressRight();
        }
      }
      assert presses[..|presses|] == presses;
    }
  }

  function MovedAll(selected: nat, n: nat, presses: seq<Press>): nat
  {
    if presses == [] then selected
    else Moved(MovedAll(selected, n, presses[..|presses| - 1]), n, presses[|presses| - 1])
  }

  lemma MovedOnce(selected: nat, n: nat, presses: seq<Press>, i: nat)
    requires i < |presses|
    ensures MovedAll(selected, n, presses[..i + 1]) == Moved(MovedAll(selected, n, presses[..i]), n, presses[i])
    ensures presses[..i + 1] == presses[..i] + [presses[i]]
  {
    assert presses[..i + 1][..i] == presses[..i];
  }
}
