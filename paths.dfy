/** Path strings as the organizer builds them with pathlib: joining a
    directory and a name, splitting a name into stem and suffix, and the
    collision-safe renaming `stem (n)suffix`. Paths are plain strings with
    `/` as separator and no normalisation. */
module Paths {
  import opened Text

  /** `dir / name`, for a single path component `name`. */
  function Join(dir: string, name: string): string
  {
    dir + "/" + name
  }

  /** The extension of a file name, as pathlib's `suffix`: from the last
      `.` to the end, or empty when that dot is the first or the last
      character or when there is no dot. */
  function Suffix(name: string): (r: string)
    ensures |r| <= |name| && r == name[|name| - |r|..]
    ensures r != [] ==> 2 <= |r| < |name| && r[0] == '.' && forall j :: 1 <= j < |r| ==> r[j] != '.'
  {
    var i := LastIndexOf(name, '.');
    if 0 < i < |name| - 1 then name[i..] else []
  }

  /** A name has no suffix exactly when every dot strictly inside it is
      followed by another dot: no dot, a leading dot (`.bashrc`) and a
      trailing dot (`notes.`) all give an empty suffix. */
  lemma SuffixEmpty(name: string)
    ensures Suffix(name) == [] <==>
      forall i :: 0 < i < |name| - 1 && name[i] == '.' ==> '.' in name[i + 1..]
  {
    var last := LastIndexOf(name, '.');
    if Suffix(name) == [] {
      forall i | 0 < i < |name| - 1 && name[i] == '.'
        ensures '.' in name[i + 1..]
      {
        assert name[i + 1..][|name| - 2 - i] == '.';
      }
    } else {
      assert name[last + 1..] == Suffix(name)[1..];
    }
  }

  /** The name without its suffix, as pathlib's `stem`. */
  function Stem(name: string): (r: string)
    ensures r + Suffix(name) == name
  {
    var i := LastIndexOf(name, '.');
    if 0 < i < |name| - 1 then name[..i] else name
  }

  /** The n-th alternative name tried on a collision: `stem (n)suffix`. */
  function Numbered(name: string, n: nat): string
  {
    Stem(name) + " (" + NatToString(n) + ")" + Suffix(name)
  }

  /** Different counters give different alternative names. */
  lemma NumberedInjective(name: string, a: nat, b: nat)
    requires Numbered(name, a) == Numbered(name, b)
    ensures a == b
  {
    var stem, suffix := Stem(name), Suffix(name);
    var sa, sb := NatToString(a), NatToString(b);
    var head := stem + " (";
    var na, nb := Numbered(name, a), Numbered(name, b);
    assert na == head + sa + (")" + suffix);
    assert nb == head + sb + (")" + suffix);
    assert |sa| == |sb|;
    assert sa == na[|head|..|head| + |sa|];
    assert sb == nb[|head|..|head| + |sb|];
    NatToStringInjective(a, b);
  }

  /** An alternative name never equals the original one. */
  lemma NumberedIsNotName(name: string, n: nat)
    ensures Numbered(name, n) != name
  {
    assert |Numbered(name, n)| > |Stem(name) + Suffix(name)|;
  }

  /** Joining different names to the same directory gives different paths. */
  lemma JoinInjective(dir: string, a: string, b: string)
    ensures Join(dir, a) == Join(dir, b) <==> a == b
  {
    assert a == Join(dir, a)[|dir| + 1..];
    assert b == Join(dir, b)[|dir| + 1..];
  }

  /** A renamed attempt of a single path component is a single path
      component. */
  lemma NumberedIsComponent(name: string, n: nat)
    requires '/' !in name
    ensures '/' !in Numbered(name, n)
  {
    var stem, digits, suffix := Stem(name), NatToString(n), Suffix(name);
    var r := Numbered(name, n);
    forall j | 0 <= j < |r|
      ensures r[j] != '/'
    {
      if j < |stem| {
        assert r[j] == name[j];
      } else if j >= |r| - |suffix| {
        assert r[j] == name[|stem| + (j - (|r| - |suffix|))];
      } else if |stem| + 2 <= j < |stem| + 2 + |digits| {
        assert r[j] == digits[j - |stem| - 2];
      }
    }
  }

  /** The parent of a path, as pathlib's `parent`. */
  function Parent(path: string): (r: string)
  {
    var i := LastIndexOf(path, '/');
    if i < 0 then "." else if i == 0 then "/" else path[..i]
  }

  /** Joining a single component and taking the parent gives the directory back. */
  lemma ParentOfJoin(dir: string, name: string)
    requires dir != [] && '/' !in name
    ensures Parent(Join(dir, name)) == dir
  {
    var p := Join(dir, name);
    assert p[|dir|] == '/';
    assert forall j :: |dir| < j < |p| ==> p[j] == name[j - |dir| - 1];
    assert LastIndexOf(p, '/') == |dir|;
  }

  /** A single component joined to `folder` is never a path two levels
      below `folder`. */
  lemma JoinNotNested(folder: string, name: string, sub: string, x: string)
    requires '/' !in name
    ensures Join(folder, name) != Join(Join(folder, sub), x)
  {
    var shallow, deep := Join(folder, name), Join(Join(folder, sub), x);
    var k := |folder| + 1 + |sub|;
    assert deep[k] == '/';
    if |shallow| == |deep| {
      assert shallow[k] == name[|sub|];
    }
  }

  /** `path` lies inside directory `dir`. */
  predicate IsUnder(path: string, dir: string)
  {
    |dir| < |path| && path[..|dir| + 1] == dir + "/"
  }

  /** A path built inside one subdirectory `a` of `folder` lies under the
      subdirectory `b` exactly when `a` and `b` are the same name. */
  lemma UnderSubdirectory(folder: string, a: string, b: string, x: string)
    requires '/' !in a && '/' !in b
    ensures IsUnder(Join(Join(folder, a), x), Join(folder, b)) <==> a == b
  {
    var p := folder + "/";
    var path := Join(Join(folder, a), x);
    var dir := Join(folder, b);
    assert path == p + a + "/" + x;
    assert dir + "/" == p + b + "/";
    if IsUnder(path, dir) {
      var m := if |a| < |b| then |a| else |b|;
      forall k | 0 <= k <= m
        ensures (a + "/")[k] == (b + "/")[k]
      {
        assert path[|p| + k] == (a + "/")[k];
        assert (p + b + "/")[|p| + k] == (b + "/")[k];
      }
      assert (m == |a|) == ((a + "/")[m] == '/');
      assert (m == |b|) == ((b + "/")[m] == '/');
      assert |a| == |b|;
      assert forall k :: 0 <= k < |a| ==> a[k] == (a + "/")[k] == (b + "/")[k] == b[k];
    }
    if a == b {
      assert path[..|dir| + 1] == dir + "/";
    }
  }
}
