/**
 * Lexical slash-separated path handling as Go's `path` and `path/filepath`
 * packages do it on a Unix host: `Clean`, `Join` and `Base`.
 * No file system is consulted.
 */
module Paths {
  import opened Text

  /** A path element: the text between two slashes, never empty. */
  predicate IsElement(e: string)
  {
    e != "" && '/' !in e
  }

  /** An element that cleaning keeps as it is (neither "." nor ".."). */
  predicate IsPlainName(e: string)
  {
    IsElement(e) && e != "." && e != ".."
  }

  predicate AllPlainNames(es: seq<string>)
  {
    forall i :: 0 <= i < |es| ==> IsPlainName(es[i])
  }

  /** Length of the run of non-slash runes that `p` starts with. */
  function ElementLength(p: string): nat
  {
    RunBefore(p, '/')
  }

  /** The non-empty elements of `p`, left to right; runs of slashes separate them. */
  function Elements(p: string): (es: seq<string>)
    ensures forall i :: 0 <= i < |es| ==> IsElement(es[i])
    decreases |p|
  {
    if p == [] then []
    else if p[0] == '/' then Elements(p[1..])
    else
      var n := ElementLength(p);
      [p[..n]] + Elements(p[n..])
  }

  /** Elements separated by single slashes. */
  function JoinElements(es: seq<string>): string
  {
    if es == [] then ""
    else if |es| == 1 then es[0]
    else es[0] + "/" + JoinElements(es[1..])
  }

  /**
   * The lexical steps of `Clean` over the elements, with `kept` the elements
   * already kept: "." is dropped, ".." removes the last kept element unless
   * that is itself "..", and at the root a ".." that has nothing to remove is
   * dropped.
   */
  function Simplify(kept: seq<string>, es: seq<string>, rooted: bool): seq<string>
    decreases |es|
  {
    if es == [] then kept
    else if es[0] == "." then Simplify(kept, es[1..], rooted)
    else if es[0] == ".." then
      if kept != [] && kept[|kept| - 1] != ".." then Simplify(kept[..|kept| - 1], es[1..], rooted)
      else if rooted then Simplify(kept, es[1..], rooted)
      else Simplify(kept + [".."], es[1..], rooted)
    else Simplify(kept + [es[0]], es[1..], rooted)
  }

  /** `path.Clean`: the shortest lexically equivalent path; "." for the empty path. */
  function Clean(p: string): (c: string)
    ensures c != ""
  {
    var rooted := p != [] && p[0] == '/';
    var body := JoinElements(Simplify([], Elements(p), rooted));
    if rooted then "/" + body
    else if body == "" then "."
    else body
  }

  /**
   * The buffer `path.Join` builds before cleaning: empty elements before the
   * first non-empty one are skipped, every later one is preceded by a slash.
   */
  function JoinBuffer(buf: string, elems: seq<string>): string
    decreases |elems|
  {
    if elems == [] then buf
    else
      var e := elems[0];
      var next := if buf != [] then buf + "/" + e else e;
      JoinBuffer(next, elems[1..])
  }

  /**
   * `path.Join` (and `filepath.Join` on Unix): "" when every element is
   * empty, otherwise the cleaned slash-joined elements.
   */
  function Join(elems: seq<string>): string
  {
    var buf := JoinBuffer("", elems);
    if buf == "" then "" else Clean(buf)
  }

  /** `p` without its trailing slashes. */
  function TrimTrailingSlashes(p: string): (t: string)
    ensures |t| <= |p| && t == p[..|t|]
    ensures t == [] || t[|t| - 1] != '/'
    ensures forall i :: |t| <= i < |p| ==> p[i] == '/'
  {
    if p != [] && p[|p| - 1] == '/' then TrimTrailingSlashes(p[..|p| - 1]) else p
  }

  /** The runes after the last slash of `t`. */
  function AfterLastSlash(t: string): (e: string)
    ensures |e| <= |t| && e == t[|t| - |e|..]
    ensures '/' !in e
    ensures |e| < |t| ==> t[|t| - |e| - 1] == '/'
  {
    if t == [] || t[|t| - 1] == '/' then [] else AfterLastSlash(t[..|t| - 1]) + [t[|t| - 1]]
  }

  /**
   * `filepath.Base`: the last element of `p`; "." for the empty path and "/"
   * for a path made only of slashes.
   */
  function Base(p: string): (b: string)
    ensures b != ""
    ensures b == "/" || '/' !in b
    ensures p != "" ==> forall c :: c in b ==> c in p
  {
    if p == "" then "."
    else
      var t := TrimTrailingSlashes(p);
      if t == "" then "/"
      else
        var e := AfterLastSlash(t);
        assert e != [] by { assert t[|t| - 1] != '/'; }
        assert forall c :: c in e ==> c in t;
        e
  }

  lemma ElementLengthOfElement(e: string, rest: string)
    requires IsElement(e)
    requires rest == [] || rest[0] == '/'
    ensures ElementLength(e + rest) == |e|
  {
    forall i | 0 <= i < |e| ensures (e + rest)[i] != '/' {
      assert (e + rest)[i] == e[i] && e[i] in e;
    }
    assert rest != [] ==> (e + rest)[|e|] == '/';
  }

  /** Splitting a slash-joined list of elements gives the list back. */
  lemma {:induction false} ElementsOfJoin(es: seq<string>)
    requires forall i :: 0 <= i < |es| ==> IsElement(es[i])
    ensures Elements(JoinElements(es)) == es
  {
    if es == [] {
    } else if |es| == 1 {
      ElementLengthOfElement(es[0], []);
      assert es[0] + [] == es[0];
      assert es[0][|es[0]|..] == [];
    } else {
      var e, rest := es[0], JoinElements(es[1..]);
      var p := e + "/" + rest;
      ElementLengthOfElement(e, "/" + rest);
      assert p == e + ("/" + rest);
      assert p[..|e|] == e;
      assert p[|e|..] == "/" + rest;
      assert ("/" + rest)[1..] == rest;
      ElementsOfJoin(es[1..]);
    }
  }

  /** Plain names pass through `Simplify` unchanged. */
  lemma {:induction false} SimplifyPlain(kept: seq<string>, es: seq<string>, rooted: bool)
    requires AllPlainNames(es)
    ensures Simplify(kept, es, rooted) == kept + es
    decreases |es|
  {
    if es != [] {
      SimplifyPlain(kept + [es[0]], es[1..], rooted);
      assert kept + [es[0]] + es[1..] == kept + es;
    }
  }

  /** A plain name followed by ".." cancels out. */
  lemma SimplifyParent(kept: seq<string>, name: string, es: seq<string>, rooted: bool)
    requires IsPlainName(name)
    ensures Simplify(kept, [name, ".."] + es, rooted) == Simplify(kept, es, rooted)
  {
    var xs := [name, ".."] + es;
    assert xs[0] == name && xs[1..] == [".."] + es;
    assert ([".."] + es)[0] == ".." && ([".."] + es)[1..] == es;
    assert (kept + [name])[..|kept|] == kept;
  }

  /** Plain names at the front are kept as they are, and simplification goes on after them. */
  lemma {:induction false} SimplifyPlainPrefix(kept: seq<string>, es: seq<string>, more: seq<string>, rooted: bool)
    requires AllPlainNames(es)
    ensures Simplify(kept, es + more, rooted) == Simplify(kept + es, more, rooted)
    decreases |es|
  {
    if es == [] {
      assert es + more == more && kept + es == kept;
    } else {
      assert (es + more)[0] == es[0] && (es + more)[1..] == es[1..] + more;
      SimplifyPlainPrefix(kept + [es[0]], es[1..], more, rooted);
      assert kept + [es[0]] + es[1..] == kept + es;
    }
  }

  /** Joining two non-empty lists of elements puts one slash between them. */
  lemma {:induction false} JoinElementsAppend(a: seq<string>, b: seq<string>)
    requires a != [] && b != []
    ensures JoinElements(a + b) == JoinElements(a) + "/" + JoinElements(b)
    decreases |a|
  {
    assert (a + b)[0] == a[0];
    if |a| == 1 {
      assert (a + b)[1..] == b;
    } else {
      assert (a + b)[1..] == a[1..] + b;
      JoinElementsAppend(a[1..], b);
    }
  }

  /** The buffer `Join` builds from three elements, the first non-empty. */
  lemma JoinBufferOfThree(a: string, b: string, c: string)
    requires a != ""
    ensures JoinBuffer("", [a, b, c]) == a + "/" + b + "/" + c
  {
    var elems := [a, b, c];
    assert elems[1..] == [b, c] && elems[1..][1..] == [c];
    assert JoinBuffer("", elems) == JoinBuffer(a, [b, c]);
    assert JoinBuffer(a, [b, c]) == JoinBuffer(a + "/" + b, [c]);
    assert [c][1..] == [];
  }

  /** Joining elements whose buffer is a rooted list of elements cleans that list. */
  lemma JoinRooted(elems: seq<string>, es: seq<string>)
    requires forall i :: 0 <= i < |es| ==> IsElement(es[i])
    requires JoinBuffer("", elems) == "/" + JoinElements(es)
    ensures Join(elems) == "/" + JoinElements(Simplify([], es, true))
  {
    var p := "/" + JoinElements(es);
    assert p[1..] == JoinElements(es);
    ElementsOfJoin(es);
  }

  /** `sub` then ".." then `name` after plain names `ds` leaves `ds` and `name`. */
  lemma SimplifyThroughParent(ds: seq<string>, sub: string, name: string)
    requires AllPlainNames(ds) && IsPlainName(sub) && IsPlainName(name)
    ensures Simplify([], ds + [sub, "..", name], true) == ds + [name]
  {
    SimplifyPlainPrefix([], ds, [sub, "..", name], true);
    assert [] + ds == ds;
    assert [sub, "..", name] == [sub, ".."] + [name];
    SimplifyParent(ds, sub, [name], true);
    SimplifyPlain(ds, [name], true);
  }

  /**
   * `Join(dir, sub, "../" + name)` for an absolute `dir` of plain names: the
   * ".." undoes `sub`, and the result is `dir/name`.
   */
  lemma JoinThroughParent(ds: seq<string>, sub: string, name: string)
    requires ds != [] && AllPlainNames(ds) && IsPlainName(sub) && IsPlainName(name)
    ensures Join(["/" + JoinElements(ds), sub, "../" + name]) == "/" + JoinElements(ds) + "/" + name
  {
    var d := "/" + JoinElements(ds);
    var tail := [sub, "..", name];
    var all := ds + tail;
    JoinBufferOfThree(d, sub, "../" + name);
    JoinElementsAppend(ds, tail);
    JoinElementsOfThree(sub, "..", name);
    ParentBuffer(JoinElements(ds), sub, name);
    assert forall i :: 0 <= i < |all| ==> IsElement(all[i]);
    JoinRooted([d, sub, "../" + name], all);
    SimplifyThroughParent(ds, sub, name);
    JoinElementsAppend(ds, [name]);
    assert JoinElements([name]) == name;
    assert Join([d, sub, "../" + name]) == "/" + (JoinElements(ds) + "/" + name);
    Regroup("/", JoinElements(ds), "/", name);
  }

  lemma Regroup(a: string, b: string, c: string, d: string)
    ensures a + (b + c + d) == a + b + c + d
  {
  }

  lemma JoinElementsOfThree(a: string, b: string, c: string)
    ensures JoinElements([a, b, c]) == a + "/" + b + "/" + c
  {
    assert [a, b, c][1..] == [b, c] && [b, c][1..] == [c];
    assert JoinElements([b, c]) == b + "/" + c;
  }

  lemma ParentBuffer(j: string, sub: string, name: string)
    ensures ("/" + j) + "/" + sub + "/" + ("../" + name) == "/" + (j + "/" + (sub + "/" + ".." + "/" + name))
  {
    assert "../" == ".." + "/";
  }

  /** A relative path of plain names is already clean. */
  lemma CleanRelativePlain(es: seq<string>)
    requires es != [] && AllPlainNames(es)
    ensures Clean(JoinElements(es)) == JoinElements(es)
  {
    var p := JoinElements(es);
    ElementsOfJoin(es);
    SimplifyPlain([], es, false);
    assert [] + es == es;
    assert es[0][0] in es[0];
    JoinElementsStartsWithFirst(es);
    assert !(p != [] && p[0] == '/');
    assert Simplify([], Elements(p), false) == es;
  }

  lemma JoinElementsStartsWithFirst(es: seq<string>)
    requires es != [] && es[0] != ""
    ensures JoinElements(es) != "" && JoinElements(es)[0] == es[0][0]
  {
    if |es| > 1 {
      assert JoinElements(es) == es[0] + ("/" + JoinElements(es[1..]));
    }
  }

  /** An absolute path of plain names is already clean. */
  lemma CleanAbsolutePlain(es: seq<string>)
    requires es != [] && AllPlainNames(es)
    ensures Clean("/" + JoinElements(es)) == "/" + JoinElements(es)
  {
    var p := "/" + JoinElements(es);
    assert p[1..] == JoinElements(es);
    ElementsOfJoin(es);
    SimplifyPlain([], es, true);
    assert [] + es == es;
  }

  /**
   * Joining the empty working directory with ".devcontainer" and a plain file
   * name gives the relative path ".devcontainer/<name>".
   */
  lemma JoinUnderEmptyDirectory(dir: string, name: string)
    requires IsPlainName(dir) && IsPlainName(name)
    ensures Join(["", dir, name]) == dir + "/" + name
  {
    assert ["", dir, name][1..] == [dir, name] && [dir, name][1..] == [name];
    assert JoinBuffer("", ["", dir, name]) == JoinBuffer(dir, [name]);
    assert JoinElements([dir, name]) == dir + "/" + name;
    CleanRelativePlain([dir, name]);
  }

  /** Joining "/<root>" with a plain name gives "/<root>/<name>". */
  lemma JoinUnderRoot(root: string, name: string)
    requires IsPlainName(root) && IsPlainName(name)
    ensures Join(["/" + root, name]) == "/" + root + "/" + name
  {
    assert ["/" + root, name][1..] == [name];
    assert JoinBuffer("", ["/" + root, name]) == JoinBuffer("/" + root, [name]);
    assert JoinElements([root, name]) == root + "/" + name;
    assert "/" + root + "/" + name == "/" + JoinElements([root, name]);
    assert JoinElements([root, name]) == root + "/" + name;
    CleanAbsolutePlain([root, name]);
  }

  /** After a slash (or at the start), the runes after the last slash are the ones that follow. */
  lemma {:induction false} AfterLastSlashOf(prefix: string, name: string)
    requires forall i :: 0 <= i < |name| ==> name[i] != '/'
    requires prefix == [] || prefix[|prefix| - 1] == '/'
    ensures AfterLastSlash(prefix + name) == name
  {
    if name == [] {
      assert prefix + name == prefix;
    } else {
      var t := prefix + name;
      var init := name[..|name| - 1];
      var last := name[|name| - 1];
      assert AfterLastSlash(t) == AfterLastSlash(prefix + init) + [last] by {
        assert t[|t| - 1] == last && last != '/';
        AfterLastSlashStep(t);
        DropLast(prefix, name);
      }
      AfterLastSlashOf(prefix, init);
      assert init + [last] == name;
    }
  }

  lemma DropLast(a: string, b: string)
    requires b != []
    ensures (a + b)[..|a + b| - 1] == a + b[..|b| - 1]
  {
  }

  lemma AfterLastSlashStep(t: string)
    requires t != [] && t[|t| - 1] != '/'
    ensures AfterLastSlash(t) == AfterLastSlash(t[..|t| - 1]) + [t[|t| - 1]]
  {
  }

  /** The base of "<dir>/<name>" is the last element `name`. */
  lemma BaseOfChild(dir: string, name: string)
    requires IsElement(name)
    ensures Base(dir + "/" + name) == name
  {
    var p := dir + "/" + name;
    assert p[|p| - 1] == name[|name| - 1];
    assert name[|name| - 1] in name;
    assert TrimTrailingSlashes(p) == p;
    assert p == (dir + "/") + name;
    assert forall i :: 0 <= i < |name| ==> name[i] != '/' by {
      forall i | 0 <= i < |name| ensures name[i] != '/' {
        assert name[i] in name;
      }
    }
    AfterLastSlashOf(dir + "/", name);
  }

  /** Trailing slashes do not change the base of a path that is not empty. */
  lemma BaseIgnoresTrailingSlash(p: string)
    requires p != ""
    ensures Base(p + "/") == Base(p)
  {
    var q := p + "/";
    assert q[..|q| - 1] == p;
  }

  /** The empty path has the base ".". */
  lemma BaseOfEmpty()
    ensures Base("") == "."
  {
  }

  /** A path made only of slashes has the base "/". */
  lemma BaseOfSlashes(p: string)
    requires p != "" && forall i :: 0 <= i < |p| ==> p[i] == '/'
    ensures Base(p) == "/"
  {
    var t := TrimTrailingSlashes(p);
    assert forall i :: 0 <= i < |t| ==> t[i] == p[i];
  }
}
