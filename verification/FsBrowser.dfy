// The file browser: a path that grows and shrinks as directories are entered and
// left, and the entries of the current directory with their highlights.
module FsBrowser {
  import opened Options
  import opened Paths
  import opened ScrollWindow

  const PAGE_SIZE: nat := 20

  datatype Entry = Entry(name: string, directory: bool, highlight: bool)

  // ------------------------------------------------------------- the string

  /** The path with a name appended; only below the root a slash has to be added. */
  function Entered(path: string, depth: nat, name: string): string
  {
    path + (if depth > 0 then "/" else "") + name
  }

  /** The path cut at its last slash, which the root's path keeps. */
  function Left(path: string, depth: nat): string
    requires '/' in path
  {
    var slash := FindLastSlash(path);
    if depth > 1 then path[..slash] else path[..slash + 1]
  }

  lemma EnterRenders(mount: string, names: seq<string>, name: string)
    requires Names(names) && Name(name)
    ensures Entered(Render(mount, names), |names|, name) == Render(mount, names + [name])
  {
    JoinPush(names, name);
  }

  lemma LeaveRenders(mount: string, names: seq<string>)
    requires Names(names) && names != []
    ensures '/' in Render(mount, names)
    ensures Left(Render(mount, names), |names|) == Render(mount, names[..|names| - 1])
  {
    var n := |names| - 1;
    var front, last := names[..n], names[n];
    assert Name(last);
    assert names == front + [last];
    JoinPush(front, last);
    var path := Render(mount, names);
    if n == 0 {
      assert path == (mount + ":") + "/" + last;
      CutAt(mount + ":", last);
      assert Join(front) == "";
      assert (mount + ":") + "/" == mount + ":/" + Join(front);
    } else {
      assert path == (mount + ":/" + Join(front)) + "/" + last;
      CutAt(mount + ":/" + Join(front), last);
    }
  }

  lemma CutAt(front: string, last: string)
    requires SlashFree(last)
    ensures '/' in front + "/" + last
    ensures FindLastSlash(front + "/" + last) == |front|
    ensures (front + "/" + last)[..|front|] == front && (front + "/" + last)[..|front| + 1] == front + "/"
  {
    SlashInside(front, last);
    AroundSlash(front + "/" + last);
    var s := front + "/" + last;
    LastSlash(front, last, s[..FindLastSlash(s)], s[FindLastSlash(s) + 1..]);
  }

  lemma SlashInside(front: string, last: string)
    ensures '/' in front + "/" + last
    ensures (front + "/" + last)[..|front|] == front && (front + "/" + last)[..|front| + 1] == front + "/"
  {
    assert (front + "/" + last)[|front|] == '/';
  }

  lemma AroundSlash(s: string)
    requires '/' in s
    ensures s == s[..FindLastSlash(s)] + "/" + s[FindLastSlash(s) + 1..]
  {
  }

  datatype Step = Enter(name: string) | Back

  /** The directories that a path stands for after some steps; None if a step is not possible. */
  function Stack(steps: seq<Step>): Option<seq<string>>
  {
    if steps == [] then Some([])
    else
      match Stack(steps[..|steps| - 1])
      case None => None
      case Some(names) => StackStep(names, steps[|steps| - 1])
  }

  function StackStep(names: seq<string>, step: Step): Option<seq<string>>
  {
    match step
    case Enter(name) => if Name(name) then Some(names + [name]) else None
    case Back => if names == [] then None else Some(names[..|names| - 1])
  }

  /** The same steps on the string alone, with the depth counted along. */
  function PathAfter(mount: string, steps: seq<Step>): (string, nat)
  {
    if steps == [] then (mount + ":/", 0)
    else
      var (path, depth) := PathAfter(mount, steps[..|steps| - 1]);
      match steps[|steps| - 1]
      case Enter(name) => (Entered(path, depth, name), depth + 1)
      case Back => if '/' in path && depth > 0 then (Left(path, depth), depth - 1) else (path, depth)
  }

  lemma {:induction false} StackNames(steps: seq<Step>)
    requires Stack(steps).Some?
    ensures Names(Stack(steps).value)
  {
    if steps != [] {
      StackNames(steps[..|steps| - 1]);
    }
  }

  /** Whatever is entered and left, the path is that of the directories still entered, and the depth their number. */
  lemma {:induction false} PathIsStack(mount: string, steps: seq<Step>)
    requires Stack(steps).Some?
    ensures PathAfter(mount, steps) == (Render(mount, Stack(steps).value), |Stack(steps).value|)
  {
    if steps == [] {
      assert Render(mount, []) == mount + ":/" + "" == mount + ":/";
    } else {
      var front, step := steps[..|steps| - 1], steps[|steps| - 1];
      PathIsStack(mount, front);
      StackNames(front);
      match step
      case Enter(name) => EnterRenders(mount, Stack(front).value, name);
      case Back => LeaveRenders(mount, Stack(front).value);
    }
  }

  function Enters(names: seq<string>): (r: seq<Step>)
    ensures |r| == |names|
  {
    seq(|names|, i requires 0 <= i < |names| => Enter(names[i]))
  }

  function Backs(n: nat): (r: seq<Step>)
    ensures |r| == n
  {
    seq(n, i => Back)
  }

  lemma {:induction false} StackEnters(steps: seq<Step>, names: seq<string>)
    requires Stack(steps).Some? && Names(names)
    ensures Stack(steps + Enters(names)) == Some(Stack(steps).value + names)
    decreases |names|
  {
    if names == [] {
      assert steps + Enters(names) == steps;
      assert Stack(steps).value + names == Stack(steps).value;
    } else {
      var n := |names| - 1;
      StackEnters(steps, names[..n]);
      assert (steps + Enters(names))[..|steps| + n] == steps + Enters(names[..n]);
      assert Name(names[n]);
      assert Stack(steps).value + names[..n] + [names[n]] == Stack(steps).value + names;
    }
  }

  lemma {:induction false} StackBacks(steps: seq<Step>, n: nat)
    requires Stack(steps).Some? && n <= |Stack(steps).value|
    ensures Stack(steps + Backs(n)) == Some(Stack(steps).value[..|Stack(steps).value| - n])
  {
    var names := Stack(steps).value;
    if n == 0 {
      assert steps + Backs(0) == steps && names[..|names|] == names;
    } else {
      StackBacks(steps, n - 1);
      assert (steps + Backs(n))[..|steps| + n - 1] == steps + Backs(n - 1);
      assert names[..|names| - (n - 1)][..|names| - n] == names[..|names| - n];
    }
  }

  /** Entering any directories and leaving as many restores the path, wherever it started. */
  lemma EntersAndBacks(mount: string, steps: seq<Step>, names: seq<string>)
    requires Stack(steps).Some? && Names(names)
    ensures PathAfter(mount, steps + Enters(names) + Backs(|names|)) == PathAfter(mount, steps)
  {
    var names0 := Stack(steps).value;
    StackEnters(steps, names);
    StackBacks(steps + Enters(names), |names|);
    assert (names0 + names)[..|names0|] == names0;
    PathIsStack(mount, steps);
    PathIsStack(mount, steps + Enters(names) + Backs(|names|));
  }

  // -------------------------------------------------------------- the object

  function Highlighted(entries: seq<Entry>): nat
  {
    if entries == [] then 0
    else Highlighted(entries[..|entries| - 1]) + (if entries[|entries| - 1].highlight then 1 else 0)
  }

  function Toggled(e: Entry): Entry { e.(highlight := !e.highlight) }

  lemma {:induction false} HighlightedUpdate(entries: seq<Entry>, k: nat, e: Entry)
    requires k < |entries|
    ensures Highlighted(entries[k := e]) ==
      Highlighted(entries) - (if entries[k].highlight then 1 else 0) + (if e.highlight then 1 else 0)
    decreases |entries|
  {
    var n := |entries| - 1;
    if k < n {
      HighlightedUpdate(entries[..n], k, e);
      assert entries[k := e][..n] == entries[..n][k := e];
    } else {
      assert entries[k := e][..n] == entries[..n];
    }
  }

  lemma {:induction false} HighlightedAll(entries: seq<Entry>, on: bool)
    requires forall k :: 0 <= k < |entries| ==> entries[k].highlight == on
    ensures Highlighted(entries) == if on then |entries| else 0
  {
    if entries != [] {
      HighlightedAll(entries[..|entries| - 1], on);
    }
  }

  /** A fresh listing: real names, nothing highlighted. */
  predicate Listing(entries: seq<Entry>)
  {
    forall k :: 0 <= k < |entries| ==> Name(entries[k].name) && !entries[k].highlight
  }

  class Browser {
    const mount: string
    var dirPath: string
    var depth: nat
    var entries: seq<Entry>
    var window: Window
    var highlighted: nat
    ghost var Directories: seq<string>

    ghost predicate Valid()
      reads this
    {
      Names(Directories) && dirPath == Render(mount, Directories) && depth == |Directories| &&
      (forall k :: 0 <= k < |entries| ==> Name(entries[k].name)) &&
      highlighted == Highlighted(entries) &&
      (if entries == [] then window == Window(0, 0) else Settled(window, |entries|, PAGE_SIZE))
    }

    constructor (mount: string, listing: seq<Entry>)
      requires Listing(listing)
      ensures Valid() && this.mount == mount && Directories == [] && entries == listing
    {
      this.mount, dirPath, depth := mount, mount + ":/", 0;
      entries, window, highlighted, Directories := listing, Window(0, 0), 0, [];
      HighlightedAll(listing, false);
      assert Render(mount, []) == mount + ":/" + "" == mount + ":/";
    }

    method Show(listing: seq<Entry>)
      requires Listing(listing)
      modifies this`entries, this`window, this`highlighted
      ensures entries == listing && highlighted == Highlighted(entries) == 0 && window == Window(0, 0)
    {
      HighlightedAll(listing, false);
      entries, window, highlighted := listing, Window(0, 0), 0;
    }

    /** Enter the selected directory; without a listing the browser is left. */
    method EnterSelected(listing: Option<seq<Entry>>) returns (ok: bool)
      requires Valid() && entries != [] && entries[window.selected].directory
      requires listing.Some? ==> Listing(listing.value)
      modifies this
      ensures ok == listing.Some?
      ensures ok ==> Valid() && entries == listing.value && Directories == old(Directories + [entries[window.selected].name])
      ensures ok ==> window == Window(0, 0) && highlighted == 0
    {
      var name := entries[window.selected].name;
      EnterRenders(mount, Directories, name);
      dirPath := Entered(dirPath, depth, name);
      if listing.None? {
        return false;
      }
      Show(listing.value);
      Directories := Directories + [name];
      depth := depth + 1;
      ok := true;
    }

    /** Back to the parent directory; at the root this leaves the browser. */
    method GoBack(listing: Option<seq<Entry>>) returns (ok: bool)
      requires Valid() && (listing.Some? ==> Listing(listing.value))
      modifies this
      ensures ok == (listing.Some? && old(Directories) != [])
      ensures ok ==> Valid() && entries == listing.value && Directories == old(Directories[..|Directories| - 1])
      ensures ok ==> window == Window(0, 0) && highlighted == 0
      ensures old(Directories) == [] ==> dirPath == old(dirPath) && depth == 0
    {
      if depth == 0 {
        return false;
      }
      LeaveRenders(mount, Directories);
      dirPath := Left(dirPath, depth);
      if listing.None? {
        return false;
      }
      Show(listing.value);
      Directories := Directories[..|Directories| - 1];
      depth := depth - 1;
      ok := true;
    }

    method ToggleSelected()
      requires Valid() && entries != []
      modifies this`entries, this`highlighted
      ensures Valid() && entries == old(entries)[window.selected := Toggled(old(entries)[window.selected])]
    {
      var k := window.selected;
      HighlightedUpdate(entries, k, Toggled(entries[k]));
      entries := entries[k := Toggled(entries[k])];
      highlighted := if entries[k].highlight then highlighted + 1 else highlighted - 1;
    }

    method Invert()
      requires Valid() && entries != []
      modifies this`entries, this`highlighted
      ensures Valid() && |entries| == |old(entries)|
      ensures forall k :: 0 <= k < |entries| ==> entries[k] == Toggled(old(entries)[k])
      ensures highlighted == |entries| - old(highlighted)
    {
      for i := 0 to |entries|
        invariant |entries| == |old(entries)| && highlighted == Highlighted(entries)
        invariant forall k :: 0 <= k < |entries| ==>
          entries[k] == if k < i then Toggled(old(entries)[k]) else old(entries)[k]
      {
        HighlightedUpdate(entries, i, Toggled(entries[i]));
        entries := entries[i := Toggled(entries[i])];
        highlighted := if entries[i].highlight then highlighted + 1 else highlighted - 1;
      }
      HighlightedInverted(old(entries), entries);
    }

    method SetAll(on: bool)
      requires Valid() && entries != []
      modifies this`entries, this`highlighted
      ensures Valid() && |entries| == |old(entries)| && highlighted == (if on then |entries| else 0)
      ensures forall k :: 0 <= k < |entries| ==> entries[k] == old(entries)[k].(highlight := on)
    {
      for i := 0 to |entries|
        invariant |entries| == |old(entries)|
        invariant forall k :: 0 <= k < |entries| ==>
          entries[k] == if k < i then old(entries)[k].(highlight := on) else old(entries)[k]
      {
        entries := entries[i := entries[i].(highlight := on)];
      }
      highlighted := if on then |entries| else 0;
      HighlightedAll(entries, on);
    }
  }

  lemma {:induction false} HighlightedInverted(a: seq<Entry>, b: seq<Entry>)
    requires |a| == |b| && forall k :: 0 <= k < |a| ==> b[k] == Toggled(a[k])
    ensures Highlighted(a) + Highlighted(b) == |a|
  {
    if a != [] {
      HighlightedInverted(a[..|a| - 1], b[..|b| - 1]);
    }
  }
}
