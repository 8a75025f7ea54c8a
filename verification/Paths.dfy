// Slash-separated paths as the file browser and the directory dump build them,
// and the list of names that such a path stands for.
module Paths {

  predicate SlashFree(s: string) { '/' !in s }

  /** A file or directory name. */
  predicate Name(s: string) { s != "" && SlashFree(s) }

  predicate Names(names: seq<string>) { forall i :: 0 <= i < |names| ==> Name(names[i]) }

  /** The names, one below the other, with slashes in between. */
  function Join(names: seq<string>): string
  {
    if names == [] then ""
    else if |names| == 1 then names[0]
    else Join(names[..|names| - 1]) + "/" + names[|names| - 1]
  }

  /** The path of a directory on a mounted device: "mount:/", then the names below the root. */
  function Render(mount: string, names: seq<string>): string
  {
    mount + ":/" + Join(names)
  }

  /** A string is cut at its last slash in one way only. */
  lemma LastSlash(x: string, y: string, u: string, v: string)
    requires SlashFree(y) && SlashFree(v) && x + "/" + y == u + "/" + v
    ensures x == u && y == v
  {
    var s := x + "/" + y;
    assert s[|x|] == '/' && s[|u|] == '/';
    assert |x| == |u|;
    assert x == s[..|x|] && u == s[..|u|] && y == s[|x| + 1..] && v == s[|u| + 1..];
  }

  lemma JoinPush(names: seq<string>, name: string)
    ensures Join(names + [name]) == (if names == [] then name else Join(names) + "/" + name)
  {
    assert (names + [name])[..|names|] == names;
  }

  lemma {:induction false} JoinNotEmpty(names: seq<string>)
    requires Names(names) && names != []
    ensures Join(names) != "" && Join(names)[|Join(names)| - 1] != '/'
  {
    assert Name(names[|names| - 1]);
  }

  /** Different lists of names have different paths. */
  lemma {:induction false} JoinInjective(a: seq<string>, b: seq<string>)
    requires Names(a) && Names(b) && Join(a) == Join(b)
    ensures a == b
  {
    if a == [] || b == [] {
      if a != [] { JoinNotEmpty(a); }
      if b != [] { JoinNotEmpty(b); }
    } else {
      var m, n := |a| - 1, |b| - 1;
      assert Name(a[m]) && Name(b[n]);
      assert a == a[..m] + [a[m]] && b == b[..n] + [b[n]];
      assert m > 0 ==> '/' in Join(a);
      assert n > 0 ==> '/' in Join(b);
      if m > 0 && n > 0 {
        LastSlash(Join(a[..m]), a[m], Join(b[..n]), b[n]);
        JoinInjective(a[..m], b[..n]);
      }
    }
  }

  /** strchr: the index of the first slash. */
  function FirstSlash(s: string): (i: nat)
    requires '/' in s
    ensures i < |s| && s[i] == '/' && SlashFree(s[..i])
  {
    if s[0] == '/' then 0 else 1 + FirstSlash(s[1..])
  }

  /** strrchr: the index of the last slash. */
  function FindLastSlash(s: string): (i: nat)
    requires '/' in s
    ensures i < |s| && s[i] == '/' && SlashFree(s[i + 1..])
  {
    var n := |s| - 1;
    if s[n] == '/' then n
    else
      assert s == s[..n] + [s[n]];
      var i := FindLastSlash(s[..n]);
      assert s[i + 1..] == s[..n][i + 1..] + [s[n]];
      i
  }
}
