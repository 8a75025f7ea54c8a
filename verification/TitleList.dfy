// The doubly linked lists of title infos, and the search for the latest version of
// a patch from anywhere in its list.
module TitleList {

  datatype MetaType = Application | Patch | AddOnContent | DataPatch | OtherType(code: nat)

  class TitleInfo {
    const metaType: MetaType
    const version: nat
    var previous: TitleInfo?
    var next: TitleInfo?

    constructor (metaType: MetaType, version: nat)
      ensures this.metaType == metaType && this.version == version && previous == null && next == null
    {
      this.metaType, this.version := metaType, version;
      previous, next := null, null;
    }
  }

  function At(nodes: seq<TitleInfo>, k: int): (r: TitleInfo?)
    ensures 0 <= k < |nodes| <==> r != null
    ensures r != null ==> r == nodes[k]
  {
    if 0 <= k < |nodes| then nodes[k] else null
  }

  /** `nodes` are linked to each other in this order and to nothing else. */
  ghost predicate Linked(nodes: seq<TitleInfo>)
    reads nodes
  {
    (forall k {:trigger nodes[k].previous} :: 0 <= k < |nodes| ==> nodes[k].previous == At(nodes, k - 1)) &&
    (forall k {:trigger nodes[k].next} :: 0 <= k < |nodes| ==> nodes[k].next == At(nodes, k + 1))
  }

  /** Links in both directions leave no room for a node to come twice. */
  lemma {:induction false} NodesDiffer(nodes: seq<TitleInfo>, i: nat, j: nat)
    requires Linked(nodes) && i < j < |nodes|
    ensures nodes[i] != nodes[j]
    decreases i
  {
    if i > 0 {
      NodesDiffer(nodes, i - 1, j - 1);
    }
    assert nodes[i].previous == At(nodes, i - 1) && nodes[j].previous == At(nodes, j - 1);
  }

  /** The length of the list that a node is in, counted from the node in both directions. */
  method GetCount(titleInfo: TitleInfo?, ghost nodes: seq<TitleInfo>, ghost p: nat) returns (count: nat)
    requires titleInfo != null ==> Linked(nodes) && p < |nodes| && nodes[p] == titleInfo
    ensures count == if titleInfo == null then 0 else |nodes|
  {
    if titleInfo == null {
      return 0;
    }
    count := 1;
    var cur := titleInfo.previous;
    ghost var k: int := p;
    while cur != null
      invariant 0 <= k <= p && count == p - k + 1 && cur == At(nodes, k - 1)
      decreases k
    {
      count := count + 1;
      k := k - 1;
      cur := cur.previous;
    }
    cur := titleInfo.next;
    k := p;
    while cur != null
      invariant p <= k < |nodes| && count == k + 1 && cur == At(nodes, k + 1)
      decreases |nodes| - k
    {
      count := count + 1;
      k := k + 1;
      cur := cur.next;
    }
  }

  /** No version of the nodes from `a` up to `b` is above that of node `best`. */
  predicate Highest(nodes: seq<TitleInfo>, a: nat, b: nat, best: nat)
    requires a <= b <= |nodes| && best < |nodes|
  {
    forall k :: a <= k < b ==> nodes[k].version <= nodes[best].version
  }

  /** No version of the nodes from `a` up to `b` reaches that of node `best`. */
  predicate Above(nodes: seq<TitleInfo>, a: int, b: int, best: nat)
    requires 0 <= a <= b <= |nodes| && best < |nodes|
  {
    forall k :: a <= k < b ==> nodes[k].version < nodes[best].version
  }

  /** The way back to the head, with the position counted from the far end of what was seen. */
  method SearchBack(titleInfo: TitleInfo, ghost nodes: seq<TitleInfo>, ghost p: nat)
    returns (latest: TitleInfo, idx: nat, count: nat)
    requires Linked(nodes) && p < |nodes| && nodes[p] == titleInfo
    ensures count == p + 1 && idx <= p && latest == nodes[idx] && Highest(nodes, 0, p + 1, idx)
    ensures Above(nodes, idx + 1, p + 1, idx)
  {
    idx, count := 0, 1;
    latest := titleInfo;
    var cur := titleInfo.previous;
    ghost var k: int, best: int := p, p;
    while cur != null
      invariant 0 <= k <= best <= p && count == p - k + 1 && cur == At(nodes, k - 1)
      invariant latest == nodes[best] && (best < p ==> idx == p - best + 1)
      invariant Highest(nodes, k, p + 1, best) && Above(nodes, best + 1, p + 1, best)
      decreases k
    {
      count := count + 1;
      k := k - 1;
      if cur.version > latest.version {
        latest, idx := cur, count;
        best := k;
      }
      cur := cur.previous;
    }
    if best < p {
      NodesDiffer(nodes, best, p);
    }
    idx := if latest != titleInfo then count - idx else count - 1;
  }

  /** The way on to the tail; a later node has to be of a higher version. */
  method SearchOn(
    titleInfo: TitleInfo, first: TitleInfo, idxBack: nat, countBack: nat, ghost nodes: seq<TitleInfo>, ghost p: nat)
    returns (latest: TitleInfo, idx: nat, count: nat)
    requires Linked(nodes) && p < |nodes| && nodes[p] == titleInfo && countBack == p + 1
    requires idxBack <= p && first == nodes[idxBack] && Highest(nodes, 0, p + 1, idxBack)
    ensures count == |nodes| && idx < |nodes| && latest == nodes[idx] && Highest(nodes, 0, |nodes|, idx)
    ensures idx == idxBack || (idx > p && Above(nodes, 0, idx, idx))
  {
    latest, idx, count := first, idxBack, countBack;
    var cur := titleInfo.next;
    ghost var k: int := p;
    while cur != null
      invariant p <= k < |nodes| && count == k + 1 && cur == At(nodes, k + 1)
      invariant idx <= k && latest == nodes[idx] && Highest(nodes, 0, k + 1, idx)
      invariant idx == idxBack || (idx > p && Above(nodes, 0, idx, idx))
      decreases |nodes| - k
    {
      count := count + 1;
      k := k + 1;
      if cur.version > latest.version {
        latest, idx := cur, count - 1;
      }
      cur := cur.next;
    }
  }

  /**
   * For a patch: a node of the highest version, its position from the head and the
   * length of the list.  Among equals the starting node wins, then the nearest one
   * before it, then the nearest one after it.  Other titles are returned as they
   * are, with position 0.
   */
  method GetLatestTitleInfo(titleInfo: TitleInfo?, ghost nodes: seq<TitleInfo>, ghost p: nat)
    returns (latest: TitleInfo?, idx: nat, count: nat)
    requires titleInfo != null ==> Linked(nodes) && p < |nodes| && nodes[p] == titleInfo
    ensures titleInfo == null ==> latest == null && idx == 0 && count == 0
    ensures titleInfo != null ==> count == |nodes|
    ensures titleInfo != null && !titleInfo.metaType.Patch? && !titleInfo.metaType.DataPatch? ==>
      latest == titleInfo && idx == 0
    ensures titleInfo != null && (titleInfo.metaType.Patch? || titleInfo.metaType.DataPatch?) ==>
      idx < |nodes| && latest == nodes[idx] && Highest(nodes, 0, |nodes|, idx) &&
      (Highest(nodes, 0, |nodes|, p) ==> idx == p) &&
      (idx < p ==> Above(nodes, idx + 1, p + 1, idx)) &&
      (idx > p ==> Above(nodes, 0, idx, idx))
  {
    if titleInfo == null || (!titleInfo.metaType.Patch? && !titleInfo.metaType.DataPatch?) {
      idx := 0;
      count := GetCount(titleInfo, nodes, p);
      return titleInfo, idx, count;
    }
    latest, idx, count := SearchBack(titleInfo, nodes, p);
    latest, idx, count := SearchOn(titleInfo, latest, idx, count, nodes, p);
  }
}
