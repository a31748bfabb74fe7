/**
  The parts of Go's `path/filepath` package that the node runtime relies on,
  with Unix semantics (separator '/', no volume names): `Clean`, `Join`, `Dir`,
  `Base` and `Ext`. `filepath.Abs` depends on the process's working directory
  and is not here: the runtime takes it as a parameter. `filepath.Rel` is a
  parameter too; the runtime keeps its failure as `RelError`.
*/
module GoPath {
  import GoStrings

  // ---------------------------------------------------------------------------
  // filepath.Clean, over the path's '/'-separated elements
  // ---------------------------------------------------------------------------

  /**
    One element of Clean's scan: empty and "." elements vanish, ".." removes the
    preceding real element, is dropped right after the root of a rooted path, and
    is kept in front of a relative path; any other element is appended.
  */
  function CleanStep(stack: seq<string>, elem: string, rooted: bool): seq<string>
  {
    if elem == "" || elem == "." then stack
    else if elem == ".." then
      if |stack| > 0 && stack[|stack| - 1] != ".." then stack[..|stack| - 1]
      else if rooted then stack
      else stack + [".."]
    else stack + [elem]
  }

  function CleanElems(stack: seq<string>, elems: seq<string>, rooted: bool): seq<string>
    decreases |elems|
  {
    if elems == [] then stack
    else CleanElems(CleanStep(stack, elems[0], rooted), elems[1..], rooted)
  }

  /** `filepath.Clean`: the shortest lexically equivalent path; "." for an empty result. */
  function Clean(path: string): string
  {
    if path == "" then "."
    else
      var rooted := path[0] == '/';
      var body := GoStrings.Join(CleanElems([], GoStrings.Split(path, '/'), rooted), "/");
      if rooted then "/" + body else if body == "" then "." else body
  }

  /**
    The element lists Clean produces: no empty, "." or '/'-holding element, any
    ".." only in a leading run, and none at all in a rooted path.
  */
  predicate NormalElems(s: seq<string>, rooted: bool)
  {
    && (forall i :: 0 <= i < |s| ==> s[i] != "" && s[i] != "." && '/' !in s[i])
    && (forall i, j :: 0 <= i < j < |s| && s[j] == ".." ==> s[i] == "..")
    && (rooted ==> forall i :: 0 <= i < |s| ==> s[i] != "..")
  }

  lemma CleanStepNormal(stack: seq<string>, elem: string, rooted: bool)
    requires NormalElems(stack, rooted) && '/' !in elem
    ensures NormalElems(CleanStep(stack, elem, rooted), rooted)
  {
    if elem == ".." && |stack| > 0 && stack[|stack| - 1] != ".." {
      var r := stack[..|stack| - 1];
      assert forall i :: 0 <= i < |r| ==> r[i] == stack[i];
    }
  }

  /** Clean's scan, started from a normal stack over '/'-free elements, ends in a normal stack. */
  lemma {:induction false} CleanElemsNormal(stack: seq<string>, elems: seq<string>, rooted: bool)
    requires NormalElems(stack, rooted)
    requires forall i :: 0 <= i < |elems| ==> '/' !in elems[i]
    ensures NormalElems(CleanElems(stack, elems, rooted), rooted)
    decreases |elems|
  {
    if elems != [] {
      CleanStepNormal(stack, elems[0], rooted);
      assert forall i :: 0 <= i < |elems[1..]| ==> elems[1..][i] == elems[i + 1];
      CleanElemsNormal(CleanStep(stack, elems[0], rooted), elems[1..], rooted);
    }
  }

  /** Scanning elements that are already normal appends them unchanged. */
  lemma {:induction false} CleanElemsOfNormal(stack: seq<string>, elems: seq<string>, rooted: bool)
    requires NormalElems(stack + elems, rooted)
    ensures CleanElems(stack, elems, rooted) == stack + elems
    decreases |elems|
  {
    if elems != [] {
      var all := stack + elems;
      assert all[|stack|] == elems[0];
      if elems[0] == ".." {
        assert |stack| > 0 ==> stack[|stack| - 1] == all[|stack| - 1];
      }
      assert CleanStep(stack, elems[0], rooted) == stack + [elems[0]];
      assert stack + [elems[0]] + elems[1..] == all;
      CleanElemsOfNormal(stack + [elems[0]], elems[1..], rooted);
    }
  }

  /** The elements Clean keeps for `path`. */
  function CleanedElems(path: string): seq<string>
    requires path != ""
  {
    CleanElems([], GoStrings.Split(path, '/'), path[0] == '/')
  }

  lemma CleanedElemsNormal(path: string)
    requires path != ""
    ensures NormalElems(CleanedElems(path), path[0] == '/')
  {
    GoStrings.SplitPartsLackSeparator(path, '/');
    CleanElemsNormal([], GoStrings.Split(path, '/'), path[0] == '/');
  }

  /** Joining normal elements and splitting them again gives them back. */
  lemma SplitNormal(elems: seq<string>, rooted: bool)
    requires elems != [] && NormalElems(elems, rooted)
    ensures GoStrings.Split(GoStrings.Join(elems, "/"), '/') == elems
  {
    GoStrings.SplitJoin(elems, '/');
  }

  /** A cleaned path is left as it is by a second Clean. */
  lemma CleanIdempotent(path: string)
    ensures Clean(Clean(path)) == Clean(path)
  {
    if path == "" {
      CleanDot();
    } else {
      var rooted := path[0] == '/';
      var elems := CleanedElems(path);
      var body := GoStrings.Join(elems, "/");
      CleanedElemsNormal(path);
      if rooted {
        CleanRooted(elems, body);
      } else if body == "" {
        CleanDot();
      } else {
        CleanRelative(elems, body);
      }
    }
  }

  lemma CleanDot()
    ensures Clean(".") == "."
  {
    GoStrings.SplitNoSeparator(".", '/');
  }

  /** "/" followed by the join of normal rooted elements is clean. */
  lemma CleanRooted(elems: seq<string>, body: string)
    requires NormalElems(elems, true) && body == GoStrings.Join(elems, "/")
    ensures Clean("/" + body) == "/" + body
  {
    var c := "/" + body;
    assert c == [] + ['/'] + body;
    GoStrings.SplitConcat([], '/', body);
    var parts := GoStrings.Split(c, '/');
    assert parts == [[]] + GoStrings.Split(body, '/');
    assert CleanElems([], parts, true) == CleanElems([], parts[1..], true);
    if elems == [] {
      assert parts[1..] == [[]];
      assert CleanElems([], parts[1..], true) == [];
    } else {
      SplitNormal(elems, true);
      assert parts[1..] == elems;
      CleanElemsOfNormal([], elems, true);
    }
    assert CleanElems([], parts, true) == elems;
  }

  /** The non-empty join of normal relative elements is clean. */
  lemma CleanRelative(elems: seq<string>, body: string)
    requires NormalElems(elems, false) && body == GoStrings.Join(elems, "/") && body != ""
    ensures Clean(body) == body
  {
    assert elems != [];
    assert elems[0] != "" && '/' !in elems[0];
    assert body[0] == elems[0][0];
    assert body[0] != '/';
    SplitNormal(elems, false);
    CleanElemsOfNormal([], elems, false);
    assert CleanElems([], GoStrings.Split(body, '/'), false) == elems;
  }

  // ---------------------------------------------------------------------------
  // filepath.Join, Dir, Base, Ext
  // ---------------------------------------------------------------------------

  /** `filepath.Join`: from the first non-empty element on, join with '/' and Clean; "" if all are empty. */
  function Join(elems: seq<string>): string
    decreases |elems|
  {
    if elems == [] then ""
    else if elems[0] == "" then Join(elems[1..])
    else Clean(GoStrings.Join(elems, "/"))
  }

  /** A non-empty result of Join is clean. */
  lemma {:induction false} JoinIsClean(elems: seq<string>)
    ensures Join(elems) != "" ==> Clean(Join(elems)) == Join(elems)
    decreases |elems|
  {
    if elems != [] {
      if elems[0] == "" {
        JoinIsClean(elems[1..]);
      } else {
        CleanIdempotent(GoStrings.Join(elems, "/"));
      }
    }
  }

  /** Index of the last '/' in `p`, or -1 when there is none. */
  function LastSlash(p: string): (i: int)
    ensures -1 <= i < |p|
    decreases |p|
  {
    if p == [] then -1
    else if p[|p| - 1] == '/' then |p| - 1
    else LastSlash(p[..|p| - 1])
  }

  /** LastSlash finds a '/' with none after it, and -1 means the path has none. */
  lemma {:induction false} LastSlashIsLast(p: string)
    ensures LastSlash(p) >= 0 ==> p[LastSlash(p)] == '/'
    ensures forall j :: LastSlash(p) < j < |p| ==> p[j] != '/'
    decreases |p|
  {
    if p != [] && p[|p| - 1] != '/' {
      var q := p[..|p| - 1];
      LastSlashIsLast(q);
      assert forall j :: 0 <= j < |q| ==> q[j] == p[j];
    }
  }

  /** `filepath.Dir`: everything up to the last separator, cleaned. */
  function Dir(path: string): string
  {
    Clean(path[..LastSlash(path) + 1])
  }

  /** The directory of a path is itself a clean path. */
  lemma DirIsClean(path: string)
    ensures Clean(Dir(path)) == Dir(path)
  {
    CleanIdempotent(path[..LastSlash(path) + 1]);
  }

  function TrimTrailingSlashes(p: string): string
    decreases |p|
  {
    if p != [] && p[|p| - 1] == '/' then TrimTrailingSlashes(p[..|p| - 1]) else p
  }

  /**
    `filepath.Base`: the last element after trailing separators are dropped;
    "." for the empty path and "/" for a path made only of separators.
  */
  function Base(path: string): string
  {
    if path == "" then "."
    else
      var t := TrimTrailingSlashes(path);
      var last := t[LastSlash(t) + 1..];
      if last == "" then "/" else last
  }

  /** The base name is one element: it holds no separator unless it is the root "/". */
  lemma BaseIsOneElement(path: string)
    ensures Base(path) == "/" || '/' !in Base(path)
  {
    if path != "" {
      AfterLastSlash(TrimTrailingSlashes(path));
    }
  }

  /** What follows the last '/' holds no '/'. */
  lemma AfterLastSlash(t: string)
    ensures '/' !in t[LastSlash(t) + 1..]
  {
    LastSlashIsLast(t);
    var k := LastSlash(t) + 1;
    var last := t[k..];
    assert forall j :: 0 <= j < |last| ==> last[j] == t[k + j];
  }

  /**
    `filepath.Ext`: the suffix starting at the last '.' of the last element, or ""
    when that element has no '.'. The result is a suffix of the path and, when
    not empty, a '.' followed by neither '.' nor '/'.
  */
  function Ext(path: string): (e: string)
    ensures |e| <= |path| && path[|path| - |e|..] == e
    ensures e != "" ==> e[0] == '.' && forall j :: 1 <= j < |e| ==> e[j] != '.' && e[j] != '/'
    decreases |path|
  {
    if path == [] then ""
    else
      var c := path[|path| - 1];
      if c == '.' then "."
      else if c == '/' then ""
      else
        var e := Ext(path[..|path| - 1]);
        if e == "" then "" else e + [c]
  }

  /** A path ending in a single-dot extension has exactly that extension. */
  lemma {:induction false} ExtOfSuffix(stem: string, ext: string)
    requires |ext| >= 1 && ext[0] == '.'
    requires forall j :: 1 <= j < |ext| ==> ext[j] != '.' && ext[j] != '/'
    ensures Ext(stem + ext) == ext
    decreases |ext|
  {
    var p := stem + ext;
    if |ext| > 1 {
      var shorter := ext[..|ext| - 1];
      assert p[..|p| - 1] == stem + shorter;
      ExtOfSuffix(stem, shorter);
      assert shorter + [ext[|ext| - 1]] == ext;
    }
  }
}
