/** getcwd: the walk from the current directory up to the root, which finds the name of
    every directory in its parent, and path resolution, which it inverts. */
module Getcwd {
  import opened Common

  // st_dev and st_ino; no two directories share them.
  datatype Id = Id(dev: int, ino: int)

  // What readdir gives, in its order, with what stat finds for the name; None when stat fails.
  datatype Entry = Entry(name: string, target: Option<Id>)

  // `parent` is what "..' means; `depth` is the distance from the root.
  datatype Tree = Tree(root: Id, entries: map<Id, seq<Entry>>, parent: map<Id, Id>, depth: map<Id, nat>)

  predicate Dots(name: string) { name == "." || name == ".." }

  predicate ProperName(name: string) { name != "" && '/' !in name }

  // Every directory but the root hangs in its parent under at least one name.
  predicate Hangs(fs: Tree, d: Id)
    requires d in fs.parent && fs.parent[d] in fs.entries
  {
    exists i :: 0 <= i < |fs.entries[fs.parent[d]]| &&
      fs.entries[fs.parent[d]][i].target == Some(d) && !Dots(fs.entries[fs.parent[d]][i].name)
  }

  predicate DistinctNames(es: seq<Entry>) {
    forall i, j :: 0 <= i < j < |es| ==> es[i].name != es[j].name
  }

  predicate ProperNames(es: seq<Entry>) {
    forall i :: 0 <= i < |es| ==> ProperName(es[i].name)
  }

  predicate DirectoryOk(fs: Tree, d: Id) {
    && d in fs.entries && d in fs.parent && d in fs.depth
    && fs.parent[d] in fs.entries && fs.parent[d] in fs.depth && fs.parent[d] in fs.parent
    && DistinctNames(fs.entries[d]) && ProperNames(fs.entries[d])
    && (d != fs.root ==> fs.depth[d] == fs.depth[fs.parent[d]] + 1 && Hangs(fs, d))
  }

  /** A finite directory tree. */
  ghost predicate WellFormed(fs: Tree) {
    && fs.root in fs.entries
    && fs.root in fs.parent && fs.parent[fs.root] == fs.root
    && forall d {:trigger DirectoryOk(fs, d)} :: d in fs.entries ==> DirectoryOk(fs, d)
  }

  // ------------------------------------------------------------------ path resolution

  function Find(es: seq<Entry>, name: string): Option<Id> {
    if es == [] then None else if es[0].name == name then es[0].target else Find(es[1..], name)
  }

  function Lookup(fs: Tree, d: Id, name: string): Option<Id> {
    if d !in fs.entries || d !in fs.parent then None
    else if name == "." then Some(d)
    else if name == ".." then Some(fs.parent[d])
    else Find(fs.entries[d], name)
  }

  // The component up to the next slash.
  function Component(s: string): (c: string)
    ensures c <= s && '/' !in c
    ensures |c| < |s| ==> s[|c|] == '/'
    ensures s != "" && s[0] != '/' ==> c != ""
  {
    if s == "" || s[0] == '/' then "" else [s[0]] + Component(s[1..])
  }

  /** Resolving the components of `s` one after the other from directory `d`. */
  function Resolve(fs: Tree, d: Id, s: string): Option<Id>
    decreases |s|
  {
    if s == "" then Some(d)
    else if s[0] == '/' then Resolve(fs, d, s[1..])
    else
      var c := Component(s);
      match Lookup(fs, d, c)
      case None => None
      case Some(e) => Resolve(fs, e, s[|c|..])
  }

  /** A pathname: absolute from the root, otherwise from the current directory. */
  function ResolvePath(fs: Tree, cwd: Id, s: string): Option<Id> {
    if s == "" then None else Resolve(fs, if s[0] == '/' then fs.root else cwd, s)
  }

  lemma {:induction false} ComponentIs(s: string, rest: string)
    requires '/' !in s && (rest == "" || rest[0] == '/')
    ensures Component(s + rest) == s
  {
    if s == "" {
      assert s + rest == rest;
    } else {
      assert s[0] in s;
      assert (s + rest)[1..] == s[1..] + rest;
      ComponentIs(s[1..], rest);
    }
  }

  lemma {:induction false} ComponentBefore(s: string, rest: string)
    requires rest != "" && rest[0] == '/'
    ensures Component(s + rest) == Component(s)
  {
    if s == "" {
      assert s + rest == rest;
    } else if s[0] != '/' {
      assert (s + rest)[1..] == s[1..] + rest;
      ComponentBefore(s[1..], rest);
    }
  }

  lemma ResolveSlash(fs: Tree, d: Id, s: string)
    ensures Resolve(fs, d, "/" + s) == Resolve(fs, d, s)
  {
    assert ("/" + s)[1..] == s;
  }

  function ResolveFrom(fs: Tree, start: Option<Id>, s: string): Option<Id> {
    match start
    case None => None
    case Some(e) => Resolve(fs, e, s)
  }

  lemma ResolveFirst(fs: Tree, d: Id, s: string)
    requires s != "" && s[0] != '/'
    ensures Component(s) <= s && Component(s) != ""
    ensures Resolve(fs, d, s) == ResolveFrom(fs, Lookup(fs, d, Component(s)), s[|Component(s)|..])
  {
  }

  lemma ResolveLast(fs: Tree, p: Id, name: string)
    requires ProperName(name)
    ensures Resolve(fs, p, "/" + name) == Lookup(fs, p, name)
  {
    ResolveSlash(fs, p, name);
    assert name[0] in name && name + "" == name;
    ComponentIs(name, "");
    ResolveFirst(fs, p, name);
    assert name[|name|..] == "";
  }

  // The first component does not depend on what follows the next slash.
  lemma ResolveOver(fs: Tree, d: Id, s: string, rest: string)
    requires s != "" && s[0] != '/' && rest != "" && rest[0] == '/'
    ensures Component(s) <= s && Component(s) != ""
    ensures Resolve(fs, d, s + rest) == ResolveFrom(fs, Lookup(fs, d, Component(s)), s[|Component(s)|..] + rest)
  {
    ResolveFirst(fs, d, s + rest);
    ComponentBefore(s, rest);
    assert (s + rest)[|Component(s)|..] == s[|Component(s)|..] + rest;
  }

  // One more component at the end is one more lookup.
  lemma {:induction false} ResolveAppend(fs: Tree, d: Id, s: string, p: Id, name: string)
    requires ProperName(name) && Resolve(fs, d, s) == Some(p)
    ensures Resolve(fs, d, s + ("/" + name)) == Lookup(fs, p, name)
    decreases |s|
  {
    var rest := "/" + name;
    if s == "" {
      assert s + rest == rest;
      ResolveLast(fs, p, name);
    } else if s[0] == '/' {
      assert s == "/" + s[1..] && s + rest == "/" + (s[1..] + rest);
      ResolveSlash(fs, d, s[1..]);
      ResolveSlash(fs, d, s[1..] + rest);
      ResolveAppend(fs, d, s[1..], p, name);
    } else {
      ResolveFirst(fs, d, s);
      ResolveOver(fs, d, s, rest);
      ResolveAppend(fs, Lookup(fs, d, Component(s)).value, s[|Component(s)|..], p, name);
    }
  }

  // ------------------------------------------------------------------ the path of a directory

  // The outcome of reading one directory for the entry of a subdirectory.
  datatype Search = Found(name: string) | StatFails | Missing

  /** The first entry that leads to `target`, unless stat fails on an entry before it. */
  function SearchFor(es: seq<Entry>, target: Id): Search {
    if es == [] then Missing
    else if Dots(es[0].name) then SearchFor(es[1..], target)
    else if es[0].target == None then StatFails
    else if es[0].target == Some(target) then Found(es[0].name)
    else SearchFor(es[1..], target)
  }

  // An entry that stat fails on, and one that leads to a directory; the walk skips `.` and `..`.
  predicate Broken(e: Entry) { e.target == None && !Dots(e.name) }

  predicate LeadsTo(e: Entry, d: Id) { e.target == Some(d) && !Dots(e.name) }

  /** A broken entry stands in front of every entry that leads to `d`. */
  predicate BrokenFirst(es: seq<Entry>, d: Id) {
    exists i :: 0 <= i < |es| && Broken(es[i]) && forall j :: 0 <= j < i ==> !LeadsTo(es[j], d)
  }

  /** What reading the entries one after the other yields. */
  predicate Answer(es: seq<Entry>, d: Id, r: Search) {
    match r
    case Found(name) =>
      exists i :: 0 <= i < |es| && LeadsTo(es[i], d) && es[i].name == name &&
        forall j :: 0 <= j < i ==> !LeadsTo(es[j], d) && !Broken(es[j])
    case StatFails => BrokenFirst(es, d)
    case Missing => forall i :: 0 <= i < |es| ==> !LeadsTo(es[i], d) && !Broken(es[i])
  }

  // One more entry in front that is neither broken nor leads to `d`.
  lemma AnswerBehind(es: seq<Entry>, d: Id, r: Search)
    requires es != [] && !LeadsTo(es[0], d) && !Broken(es[0]) && Answer(es[1..], d, r)
    ensures Answer(es, d, r)
  {
    var rest := es[1..];
    match r
    case Found(name) =>
      var i :| 0 <= i < |rest| && LeadsTo(rest[i], d) && rest[i].name == name &&
        forall j :: 0 <= j < i ==> !LeadsTo(rest[j], d) && !Broken(rest[j]);
      forall j | 0 <= j < i + 1 ensures !LeadsTo(es[j], d) && !Broken(es[j]) {
        if j > 0 { assert es[j] == rest[j - 1]; }
      }
      assert LeadsTo(es[i + 1], d) && es[i + 1].name == name;
    case StatFails =>
      var i :| 0 <= i < |rest| && Broken(rest[i]) && forall j :: 0 <= j < i ==> !LeadsTo(rest[j], d);
      forall j | 0 <= j < i + 1 ensures !LeadsTo(es[j], d) {
        if j > 0 { assert es[j] == rest[j - 1]; }
      }
      assert Broken(es[i + 1]);
    case Missing =>
      forall i | 0 <= i < |es| ensures !LeadsTo(es[i], d) && !Broken(es[i]) {
        if i > 0 { assert es[i] == rest[i - 1]; }
      }
  }

  /** The directory read fails exactly when a broken entry comes first, and otherwise finds
      the first entry that leads to `d`, if there is one. */
  lemma {:induction false} SearchAnswers(es: seq<Entry>, d: Id)
    ensures Answer(es, d, SearchFor(es, d))
    ensures SearchFor(es, d) == StatFails <==> BrokenFirst(es, d)
  {
    if es != [] {
      if LeadsTo(es[0], d) || Broken(es[0]) {
        assert Answer(es, d, SearchFor(es, d));
      } else {
        SearchAnswers(es[1..], d);
        AnswerBehind(es, d, SearchFor(es[1..], d));
      }
    }
  }

  lemma {:induction false} FoundIsFound(es: seq<Entry>, target: Id)
    requires DistinctNames(es) && ProperNames(es)
    ensures var r := SearchFor(es, target);
      r.Found? ==>
        Find(es, r.name) == Some(target) && !Dots(r.name) && ProperName(r.name) &&
        exists i :: 0 <= i < |es| && es[i].name == r.name
    ensures SearchFor(es, target) == Missing ==>
      forall i :: 0 <= i < |es| ==> es[i].target != Some(target) || Dots(es[i].name)
  {
    if es != [] {
      FoundIsFound(es[1..], target);
      var r := SearchFor(es[1..], target);
      if r.Found? {
        var i :| 0 <= i < |es[1..]| && es[1..][i].name == r.name;
        assert es[i + 1].name == r.name;
      }
      if SearchFor(es, target) == Missing {
        forall i | 0 <= i < |es|
          ensures es[i].target != Some(target) || Dots(es[i].name)
        {
          if i > 0 { assert es[i] == es[1..][i - 1]; }
        }
      }
    }
  }

  /** The absolute path of a directory, empty for the root; None when stat fails on the way. */
  function PathOf(fs: Tree, d: Id): Option<string>
    requires WellFormed(fs) && d in fs.entries
    decreases assert DirectoryOk(fs, d); fs.depth[d]
  {
    assert DirectoryOk(fs, d);
    if d == fs.root then Some("")
    else
      assert DirectoryOk(fs, fs.parent[d]);
      match (PathOf(fs, fs.parent[d]), SearchFor(fs.entries[fs.parent[d]], d))
      case (Some(path), Found(name)) => Some(path + "/" + name)
      case _ => None
  }

  /** In no directory between `d` and the root a broken entry stands in front of the one that leads down. */
  ghost predicate Readable(fs: Tree, d: Id)
    requires WellFormed(fs) && d in fs.entries
    decreases assert DirectoryOk(fs, d); fs.depth[d]
  {
    assert DirectoryOk(fs, d);
    d == fs.root ||
      (assert DirectoryOk(fs, fs.parent[d]);
       !BrokenFirst(fs.entries[fs.parent[d]], d) && Readable(fs, fs.parent[d]))
  }

  // What one directory below the root adds.
  lemma OneLevel(fs: Tree, d: Id) returns (p: Id, r: Search)
    requires WellFormed(fs) && d in fs.entries && d != fs.root
    ensures DirectoryOk(fs, d) && DirectoryOk(fs, p) && p == fs.parent[d] && r == SearchFor(fs.entries[p], d)
    ensures fs.depth[p] < fs.depth[d] && r != Missing
    ensures r.Found? ==> Find(fs.entries[p], r.name) == Some(d) && !Dots(r.name) && ProperName(r.name)
    ensures Readable(fs, d) <==> r.Found? && Readable(fs, p)
    ensures PathOf(fs, d) ==
      if r.Found? && PathOf(fs, p).Some? then Some(PathOf(fs, p).value + "/" + r.name) else None
  {
    assert DirectoryOk(fs, d);
    p := fs.parent[d];
    assert DirectoryOk(fs, p);
    r := SearchFor(fs.entries[p], d);
    FoundIsFound(fs.entries[p], d);
    SearchAnswers(fs.entries[p], d);
    assert Hangs(fs, d);
  }

  /** The path of a directory resolves to the directory. */
  lemma {:induction false} PathResolves(fs: Tree, d: Id)
    requires WellFormed(fs) && d in fs.entries
    ensures PathOf(fs, d).Some? <==> Readable(fs, d)
    ensures PathOf(fs, d).Some? ==> Resolve(fs, fs.root, PathOf(fs, d).value) == Some(d)
    ensures PathOf(fs, d).Some? && d != fs.root ==> PathOf(fs, d).value != "" && PathOf(fs, d).value[0] == '/'
    decreases assert DirectoryOk(fs, d); fs.depth[d]
  {
    if d != fs.root {
      var p, r := OneLevel(fs, d);
      PathResolves(fs, p);
      if r.Found? && PathOf(fs, p).Some? {
        ResolveAppend(fs, fs.root, PathOf(fs, p).value, p, r.name);
        assert PathOf(fs, p).value + "/" + r.name == PathOf(fs, p).value + ("/" + r.name);
      }
    }
  }

  // Every slash is followed by a character of a name.
  predicate SingleSlashes(path: string) {
    forall i :: 0 <= i < |path| && path[i] == '/' ==> i + 1 < |path| && path[i + 1] != '/'
  }

  /** The path has one component for every level below the root, and no empty one. */
  lemma {:induction false} PathShape(fs: Tree, d: Id)
    requires WellFormed(fs) && d in fs.entries && PathOf(fs, d).Some?
    ensures DirectoryOk(fs, d) && DirectoryOk(fs, fs.root)
    ensures SingleSlashes(PathOf(fs, d).value)
    ensures fs.depth[fs.root] + multiset(PathOf(fs, d).value)['/'] == fs.depth[d]
    decreases assert DirectoryOk(fs, d); fs.depth[d]
  {
    assert DirectoryOk(fs, d) && DirectoryOk(fs, fs.root);
    if d != fs.root {
      var p, r := OneLevel(fs, d);
      PathShape(fs, p);
      AddComponent(PathOf(fs, p).value, r.name);
    }
  }

  lemma AddComponent(path: string, name: string)
    requires SingleSlashes(path) && ProperName(name)
    ensures SingleSlashes(path + "/" + name)
    ensures multiset(path + "/" + name)['/'] == multiset(path)['/'] + 1
  {
    var longer := path + "/" + name;
    forall i | |path| < i < |longer|
      ensures longer[i] != '/'
    {
      assert longer[i] == name[i - |path| - 1] && longer[i] in name;
    }
    forall i | 0 <= i < |longer| && longer[i] == '/'
      ensures i + 1 < |longer| && longer[i + 1] != '/'
    {
      assert i < |path| ==> path[i] == longer[i];
    }
    assert multiset(name)['/'] == 0;
    assert multiset("/")['/'] == 1;
    assert multiset(longer) == multiset(path) + multiset("/") + multiset(name);
  }

  // ------------------------------------------------------------------ the function

  // snprintf into a buffer of `size` bytes.
  function Fit(s: string, size: nat): (r: string)
    requires size > 0
    ensures r <= s && |r| == Min(|s|, size - 1)
  {
    if |s| < size then s else s[..size - 1]
  }

  lemma FitAgain(a: string, b: string, size: nat)
    requires size > 0
    ensures Fit(a + Fit(b, size), size) == Fit(a + b, size)
  {
  }

  lemma Regroup(upper: Option<string>, name: string, rest: string)
    ensures upper.Some? ==> upper.value + "/" + name + rest == upper.value + ("/" + name + rest)
  {
  }

  function OrSlash(path: string): string { if path == "" then "/" else path }

  // chdir: no effect unless the path leads to a directory.
  function ChangeDir(fs: Tree, cwd: Id, path: string): Id {
    var target := ResolvePath(fs, cwd, path);
    if target.Some? && target.value in fs.entries then target.value else cwd
  }

  // `..` leads to the parent.
  lemma ChangeUp(fs: Tree, d: Id)
    requires WellFormed(fs) && d in fs.entries
    ensures d in fs.parent && ChangeDir(fs, d, "..") == fs.parent[d]
  {
    assert DirectoryOk(fs, d);
    assert ".." + "" == "..";
    ComponentIs("..", "");
    ResolveFirst(fs, d, "..");
    assert ".."[2..] == "";
  }

  // A directory with one long name, and the path of that name cut to the buffer.
  lemma CutMissesName(fs: Tree, d: Id, name: string, size: nat)
    requires size > 1 && |name| == size && name[0] == 'a' && '/' !in name
    requires d == fs.root && d in fs.entries && d in fs.parent
    requires |fs.entries[d]| == 1 && fs.entries[d][0].name == name
    ensures ChangeDir(fs, d, OrSlash(Fit("/" + name, size))) == d
  {
    var cut := name[..size - 2];
    var path := "/" + cut;
    assert Fit("/" + name, size) == path;
    ResolveSlash(fs, d, cut);
    if cut != "" {
      assert cut[0] == 'a' && cut + "" == cut && |cut| != |name|;
      ComponentIs(cut, "");
      ResolveFirst(fs, d, cut);
      assert Find(fs.entries[d], cut) == None;
      assert Lookup(fs, d, cut) == None;
    }
    assert path[0] == '/';
  }

  /** A path that does not fit can leave the process elsewhere: for every size of the
      buffer there is a tree in which the way back from some directory ends at the root. */
  lemma LeftElsewhere(pathMax: nat) returns (fs: Tree, d: Id)
    requires pathMax > 1
    ensures WellFormed(fs) && d in fs.entries && Readable(fs, d) && PathOf(fs, d).Some? && d != fs.root
    ensures ChangeDir(fs, fs.root, OrSlash(Fit(PathOf(fs, d).value, pathMax))) == fs.root
  {
    var root, name := Id(0, 1), seq(pathMax, _ => 'a');
    d := Id(0, 2);
    fs := Tree(root, map[root := [Entry(name, Some(d))], d := []],
               map[root := root, d := root], map[root := 0, d := 1]);
    assert name[0] == 'a' && ProperName(name) && !Dots(name);
    assert fs.entries[fs.parent[d]][0].target == Some(d) && Hangs(fs, d);
    assert DirectoryOk(fs, root) && DirectoryOk(fs, d);
    assert SearchFor(fs.entries[root], d) == Found(name);
    var q, r := OneLevel(fs, d);
    assert PathOf(fs, root).value + "/" + name == "/" + name;
    assert PathOf(fs, d).value == "/" + name;
    CutMissesName(fs, root, name, pathMax);
  }

  /** A process with its current directory. */
  class Process {
    var cwd: Id

    constructor (cwd: Id)
      ensures this.cwd == cwd
    {
      this.cwd := cwd;
    }

    // One directory read: the name of `child` in the current directory.
    method NameOf(fs: Tree, child: Id) returns (r: Search)
      requires cwd in fs.entries
      ensures Answer(fs.entries[cwd], child, r)
      ensures r == SearchFor(fs.entries[cwd], child)
    {
      SearchAnswers(fs.entries[cwd], child);
      var es := fs.entries[cwd];
      var i := 0;
      while i < |es|
        invariant 0 <= i <= |es|
        invariant SearchFor(es, child) == SearchFor(es[i..], child)
      {
        assert es[i..][1..] == es[i + 1..];
        if Dots(es[i].name) {
          i := i + 1;
          continue;
        }
        if es[i].target == None {
          return StatFails;
        }
        if es[i].target == Some(child) {
          return Found(es[i].name);
        }
        i := i + 1;
      }
      return Missing;
    }

    /** The upward walk: it ends at the root with the path of the directory it started
        from, cut to the buffer; None stands for the exit after a failed stat. */
    method WalkUp(fs: Tree, pathMax: nat) returns (r: Option<string>)
      requires WellFormed(fs) && cwd in fs.entries && pathMax > 0
      modifies this
      ensures r.Some? <==> Readable(fs, old(cwd))
      ensures r.Some? ==>
        PathOf(fs, old(cwd)).Some? && r.value == Fit(PathOf(fs, old(cwd)).value, pathMax) && cwd == fs.root
    {
      var cst := cwd;
      var path := "";
      ghost var rest := "";
      assert PathOf(fs, cwd).Some? ==> PathOf(fs, cwd).value + rest == PathOf(fs, cwd).value;
      while cst != fs.root
        invariant cwd == cst && cst in fs.entries
        invariant path == Fit(rest, pathMax)
        invariant Readable(fs, old(cwd)) == Readable(fs, cst)
        invariant PathOf(fs, cst).Some? ==> PathOf(fs, old(cwd)) == Some(PathOf(fs, cst).value + rest)
        decreases assert DirectoryOk(fs, cst); fs.depth[cst]
      {
        ghost var p, search := OneLevel(fs, cst);
        ChangeUp(fs, cst);
        var pst := fs.parent[cst];
        cwd := ChangeDir(fs, cwd, "..");
        var found := NameOf(fs, cst);
        match found {
          case StatFails => return None;
          case Found(name) =>
            FitAgain("/" + name, rest, pathMax);
            Regroup(PathOf(fs, pst), name, rest);
            path := Fit("/" + name + path, pathMax);
            rest := "/" + name + rest;
          case Missing =>
        }
        cst := pst;
      }
      PathResolves(fs, old(cwd));
      return Some(path);
    }

    /** getcwd: it fails exactly when stat fails on the way; otherwise it returns the path
        of the directory that was current, cut to the two buffers, and the process ends
        where the path cut to the first of them leads. If the path fits that one, the
        directory is current again, and if it fits both, resolving the returned string
        reaches the directory, from wherever it is resolved. */
    method Run(fs: Tree, pathMax: nat, size: nat) returns (buf: Option<string>)
      requires WellFormed(fs) && cwd in fs.entries && pathMax > 1
      modifies this
      ensures buf.Some? <==> Readable(fs, old(cwd))
      ensures buf.Some? ==> PathOf(fs, old(cwd)).Some?
      ensures buf.Some? ==>
        var path := OrSlash(Fit(PathOf(fs, old(cwd)).value, pathMax));
        buf.value == path[..Min(|path|, size)] && cwd == ChangeDir(fs, fs.root, path)
      ensures old(cwd) == fs.root && size > 0 ==> buf == Some("/")
      ensures buf.Some? && |OrSlash(PathOf(fs, old(cwd)).value)| < pathMax ==> cwd == old(cwd)
      ensures buf.Some? && |OrSlash(PathOf(fs, old(cwd)).value)| < Min(pathMax, size) ==>
        && buf.value == OrSlash(PathOf(fs, old(cwd)).value)
        && forall d :: ResolvePath(fs, d, buf.value) == Some(old(cwd))
    {
      var r := WalkUp(fs, pathMax);
      if r == None {
        return None;
      }
      PathResolves(fs, old(cwd));
      var path := OrSlash(r.value);
      assert path == "/" ==> path[1..] == "" && path[..1] == path;
      // strncpy: at most `size` characters
      buf := Some(path[..Min(|path|, size)]);
      cwd := ChangeDir(fs, cwd, path);
    }
  }
}
