/** Path names: skipelem takes one element off, and namex walks the directories along a path. */
module Paths {
  import opened Blocks
  import opened Inodes
  import opened FileSystem
  import opened Directory

  const SLASH: Byte := 47

  // ---------------------------------------------------------------- the components of a path

  /** The pieces of a path between its slashes, empty ones included. */
  function Split(p: seq<Byte>): (r: seq<Name>)
    ensures |r| > 0
  {
    if p == [] then [[]]
    else if p[0] == SLASH then [[]] + Split(p[1..])
    else
      var r := Split(p[1..]);
      [[p[0]] + r[0]] + r[1..]
  }

  function NonEmpty(ns: seq<Name>): (r: seq<Name>)
  {
    if ns == [] then [] else (if ns[0] == [] then [] else [ns[0]]) + NonEmpty(ns[1..])
  }

  function Components(p: seq<Byte>): (r: seq<Name>)
  {
    NonEmpty(Split(p))
  }

  predicate NoSlash(e: seq<Byte>)
  {
    forall k :: 0 <= k < |e| ==> e[k] != SLASH
  }

  lemma {:induction false} SkipSlash(p: seq<Byte>)
    requires p != [] && p[0] == SLASH
    ensures Components(p) == Components(p[1..])
  {
    assert ([[]] + Split(p[1..]))[1..] == Split(p[1..]);
  }

  lemma {:induction false} SplitElement(e: seq<Byte>, q: seq<Byte>)
    requires NoSlash(e) && (q == [] || q[0] == SLASH)
    ensures Split(e + q) == [e] + Split(q)[1..] && Split(q)[0] == []
    decreases |e|
  {
    if e == [] {
      assert e + q == q;
    } else {
      SplitElement(e[1..], q);
      assert (e + q)[1..] == e[1..] + q;
      assert [e[0]] + e[1..] == e;
    }
  }

  /** A path that starts with an element: that element, then the components of what follows. */
  lemma {:induction false} FirstComponent(e: seq<Byte>, q: seq<Byte>)
    requires e != [] && NoSlash(e) && (q == [] || q[0] == SLASH)
    ensures Components(e + q) == [e] + Components(q)
  {
    SplitElement(e, q);
    var tail := Split(q)[1..];
    assert [[]] + tail == Split(q);
    hide Split, NoSlash;
    NonEmptyCons(e, tail);
    NonEmptyCons([], tail);
  }

  lemma {:induction false} NonEmptyCons(e: Name, tail: seq<Name>)
    ensures NonEmpty([e] + tail) == (if e == [] then [] else [e]) + NonEmpty(tail)
  {
    assert ([e] + tail)[1..] == tail;
  }

  lemma {:induction false} NoComponents(p: seq<Byte>)
    requires p != [] && p[0] != SLASH
    ensures Components(p) != []
  {
  }

  predicate Slashes(s: seq<Byte>)
  {
    forall k :: 0 <= k < |s| ==> s[k] == SLASH
  }

  /** Names with a run of slashes after each. */
  function Spelled(names: seq<Name>, gaps: seq<seq<Byte>>): (p: seq<Byte>)
    requires |gaps| == |names|
  {
    if names == [] then [] else names[0] + gaps[0] + Spelled(names[1..], gaps[1..])
  }

  lemma {:induction false} SpelledStep(names: seq<Name>, gaps: seq<seq<Byte>>)
    requires |gaps| == |names|
    requires forall k :: 0 <= k < |gaps| ==> Slashes(gaps[k]) && (k < |gaps| - 1 ==> gaps[k] != [])
    ensures if names == [] then Spelled(names, gaps) == [] else
      var rest := gaps[0] + Spelled(names[1..], gaps[1..]);
      Spelled(names, gaps) == names[0] + rest && (rest == [] || rest[0] == SLASH)
  {
  }

  lemma {:induction false} SkipAll(lead: seq<Byte>, p: seq<Byte>)
    requires Slashes(lead)
    ensures Components(lead + p) == Components(p)
    decreases |lead|
  {
    if lead == [] {
      assert lead + p == p;
    } else {
      SkipSlash(lead + p);
      assert (lead + p)[1..] == lead[1..] + p;
      SkipAll(lead[1..], p);
    }
  }

  /**
    However names are put together to a path, with any run of slashes before, between and after
    them, they are what the path is taken apart into.
   */
  lemma {:induction false} SpelledComponents(lead: seq<Byte>, names: seq<Name>, gaps: seq<seq<Byte>>)
    requires |gaps| == |names| && Slashes(lead)
    requires forall k :: 0 <= k < |names| ==> names[k] != [] && NoSlash(names[k])
    requires forall k :: 0 <= k < |gaps| ==> Slashes(gaps[k]) && (k < |gaps| - 1 ==> gaps[k] != [])
    ensures Components(lead + Spelled(names, gaps)) == names
    decreases |names|
  {
    hide Components, NoSlash, Slashes, Spelled;
    SkipAll(lead, Spelled(names, gaps));
    SpelledStep(names, gaps);
    if names == [] {
      NothingLeft();
    } else {
      SpelledComponents(gaps[0], names[1..], gaps[1..]);
      FirstComponent(names[0], gaps[0] + Spelled(names[1..], gaps[1..]));
    }
  }

  datatype Skipped = Skipped(rest: seq<Byte>, name: seq<Byte>) | NoName

  /** The path is a C string: no zero bytes. The name buffer has 14 bytes and keeps its old tail. */
  method Skipelem(path: seq<Byte>, buf: seq<Byte>) returns (r: Skipped)
    requires |buf| == DIRSIZ && 0 !in path
    ensures r.NoName? <==> Components(path) == []
    ensures r.Skipped? ==>
      && |r.name| == DIRSIZ && 0 !in r.rest && |r.rest| < |path|
      && Components(path) == [Components(path)[0]] + Components(r.rest)
      && Cut(r.name, DIRSIZ) == Cut(Components(path)[0], DIRSIZ)
      && (r.rest == [] <==> |Components(path)| == 1)
  {
    hide Components, Cut;
    var i := SkipSlashes(path, 0);
    if i == |path| {
      assert path[i..] == [];
      NothingLeft();
      return NoName;
    }
    var s := i;
    while i < |path| && path[i] != SLASH
      invariant s <= i <= |path| && NoSlash(path[s..i]) && (i == s ==> path[i] != SLASH)
    {
      assert path[s..i + 1] == path[s..i] + [path[i]];
      i := i + 1;
    }
    ghost var e := path[s..i];
    assert path[s..] == e + path[i..];
    FirstComponent(e, path[i..]);
    var name := CopyName(path[s..i], buf);
    i := SkipSlashes(path, i);
    if i < |path| {
      NoComponents(path[i..]);
    } else {
      assert path[i..] == [];
      NothingLeft();
    }
    return Skipped(path[i..], name);
  }

  lemma {:induction false} NothingLeft()
    ensures Components([]) == []
  {
  }

  method SkipSlashes(path: seq<Byte>, from: nat) returns (i: nat)
    requires from <= |path|
    ensures from <= i <= |path| && (i < |path| ==> path[i] != SLASH)
    ensures Components(path[from..]) == Components(path[i..])
  {
    hide Components;
    i := from;
    while i < |path| && path[i] == SLASH
      invariant from <= i <= |path| && Components(path[from..]) == Components(path[i..])
    {
      SkipSlash(path[i..]);
      assert path[i..][1..] == path[i + 1..];
      i := i + 1;
    }
  }

  /** The memmove into the name buffer: 14 bytes with no terminator, or the element and one. */
  method CopyName(e: seq<Byte>, buf: seq<Byte>) returns (name: seq<Byte>)
    requires |buf| == DIRSIZ && 0 !in e
    ensures |name| == DIRSIZ && Cut(name, DIRSIZ) == Cut(e, DIRSIZ)
  {
    if |e| >= DIRSIZ {
      CutIs(e, DIRSIZ, DIRSIZ);
      CutIs(e[..DIRSIZ], DIRSIZ, DIRSIZ);
      return e[..DIRSIZ];
    }
    name := e + [0] + buf[|e| + 1..];
    CutIs(e, DIRSIZ, |e|);
    CutIs(name, DIRSIZ, |e|);
    assert name[..|e|] == e;
  }

  // ---------------------------------------------------------------- walking

  /** The directories, each as a map from names to inode numbers; other inodes are absent. */
  type Tree = map<nat, map<Name, nat>>

  /** Folding lookup over names, starting at cur. */
  function Walk(t: Tree, cur: nat, names: seq<Name>): (r: Option<nat>)
    decreases |names|
  {
    if names == [] then Some(cur)
    else if cur !in t || Cut(names[0], DIRSIZ) !in t[cur] then None
    else Walk(t, t[cur][Cut(names[0], DIRSIZ)], names[1..])
  }

  /** All components, or all but the last, when the result has to be a directory. */
  function Resolve(t: Tree, cur: nat, names: seq<Name>, parent: bool): (r: Option<nat>)
  {
    if !parent then Walk(t, cur, names)
    else if names == [] then None
    else
      var d := Walk(t, cur, names[..|names| - 1]);
      if d.Some? && d.value in t then d else None
  }

  lemma {:induction false} ResolveStep(t: Tree, cur: nat, names: seq<Name>, parent: bool)
    requires names != []
    ensures cur !in t ==> Resolve(t, cur, names, parent) == None
    ensures cur in t && parent && |names| == 1 ==> Resolve(t, cur, names, parent) == Some(cur)
    ensures cur in t && !(parent && |names| == 1) ==>
      var n := Cut(names[0], DIRSIZ);
      Resolve(t, cur, names, parent) == if n in t[cur] then Resolve(t, t[cur][n], names[1..], parent) else None
  {
    var n := |names|;
    if n > 1 {
      assert names[..n - 1][1..] == names[1..][..n - 2];
      assert names[..n - 1][0] == names[0];
    }
  }

  /** A path leads where its last name does from the directory that nameiparent gives. */
  lemma {:induction false} ParentThenName(t: Tree, cur: nat, names: seq<Name>, n: Name)
    ensures
      var d := Resolve(t, cur, names + [n], true);
      && (d.Some? ==> d.value in t && Resolve(t, cur, names, false) == d)
      && Resolve(t, cur, names + [n], false) ==
         if d.None? || Cut(n, DIRSIZ) !in t[d.value] then None else Some(t[d.value][Cut(n, DIRSIZ)])
  {
    WalkOn(t, cur, names, n);
    assert (names + [n])[..|names|] == names;
  }

  lemma {:induction false} WalkOn(t: Tree, cur: nat, names: seq<Name>, n: Name)
    ensures
      var d := Walk(t, cur, names);
      Walk(t, cur, names + [n]) ==
        if d.None? || d.value !in t || Cut(n, DIRSIZ) !in t[d.value] then None else Some(t[d.value][Cut(n, DIRSIZ)])
    decreases |names|
  {
    if names != [] {
      assert (names + [n])[1..] == names[1..] + [n];
      if cur in t && Cut(names[0], DIRSIZ) in t[cur] {
        WalkOn(t, t[cur][Cut(names[0], DIRSIZ)], names[1..], n);
      }
    } else {
      assert (names + [n])[1..] == [];
    }
  }

  /** The directories named by dirs hold their names once, and their entries name inodes. */
  ghost predicate TreeOk(fs: FileSystem, dirs: set<nat>)
    requires fs.Valid()
    reads fs
  {
    && (forall d :: d in dirs ==> d < |fs.inodes| && DirOk(FileBytes(fs, d)))
    && (forall d, n :: d in dirs && n in DirMap(FileBytes(fs, d)) ==> DirMap(FileBytes(fs, d))[n] < |fs.inodes|)
  }

  ghost function TreeOf(fs: FileSystem, dirs: set<nat>): (t: Tree)
    requires fs.Valid() && TreeOk(fs, dirs)
    reads fs
  {
    map d | d in dirs :: DirMap(FileBytes(fs, d))
  }

  lemma {:induction false} TreeStep(fs: FileSystem, dirs: set<nat>, d: nat)
    requires fs.Valid() && TreeOk(fs, dirs) && d in dirs
    ensures d < |fs.inodes| && DirOk(FileBytes(fs, d)) && TreeOf(fs, dirs)[d] == DirMap(FileBytes(fs, d))
    ensures forall n :: n in DirMap(FileBytes(fs, d)) ==> DirMap(FileBytes(fs, d))[n] < |fs.inodes|
  {
  }

  /** One step of the walk, which looks and changes nothing. */
  method LookupIn(fs: FileSystem, dirs: set<nat>, d: nat, name: seq<Byte>) returns (r: Option<nat>)
    requires fs.Valid() && TreeOk(fs, dirs) && d in dirs
    modifies fs`blk, fs`inodes, fs`owner, fs`logged
    ensures fs.Valid() && fs.blk == old(fs.blk) && fs.inodes == old(fs.inodes) && fs.owner == old(fs.owner) && fs.logged == old(fs.logged)
    ensures TreeOk(fs, dirs) && TreeOf(fs, dirs) == old(TreeOf(fs, dirs))
    ensures var m := TreeOf(fs, dirs)[d]; r == if Cut(name, DIRSIZ) in m then Some(m[Cut(name, DIRSIZ)]) else None
    ensures r.Some? ==> r.value < |fs.inodes|
  {
    TreeStep(fs, dirs, d);
    hide fs.Valid, DirOk, DirMap, Cut, Holds, Contents;
    var l := Dirlookup(fs, d, name);
    r := if l.Found? then Some(l.inum) else None;
  }

  /**
    namex: folds lookup over the nonempty components of the path, from the root or the current
    directory; nameiparent stops one level early and leaves the last component in name.
   */
  method Namex(fs: FileSystem, dirs: set<nat>, cwd: nat, root: nat, path: seq<Byte>, parent: bool, buf: seq<Byte>) returns (r: Option<nat>, name: seq<Byte>)
    requires fs.Valid() && TreeOk(fs, dirs) && cwd < |fs.inodes| && root < |fs.inodes| && 0 !in path && |buf| == DIRSIZ
    modifies fs`blk, fs`inodes, fs`owner, fs`logged
    ensures fs.Valid() && fs.blk == old(fs.blk) && fs.inodes == old(fs.inodes) && fs.owner == old(fs.owner) && fs.logged == old(fs.logged)
    ensures r == Resolve(old(TreeOf(fs, dirs)), if path != [] && path[0] == SLASH then root else cwd, Components(path), parent)
    ensures parent && r.Some? ==> Components(path) != [] && Cut(name, DIRSIZ) == Cut(Components(path)[|Components(path)| - 1], DIRSIZ)
  {
    hide fs.Valid, DirOk, DirMap, Cut, Components, TreeOk, TreeOf, Resolve;
    ghost var t := TreeOf(fs, dirs);
    var ip: nat := if path != [] && path[0] == SLASH then root else cwd;
    ghost var all, start := Components(path), ip;
    var p := path;
    name := buf;
    while true
      invariant fs.Valid() && fs.blk == old(fs.blk) && fs.inodes == old(fs.inodes) && fs.owner == old(fs.owner) && fs.logged == old(fs.logged)
      invariant TreeOk(fs, dirs) && TreeOf(fs, dirs) == t && t == old(TreeOf(fs, dirs)) && ip < |fs.inodes| && 0 !in p && |name| == DIRSIZ
      invariant Resolve(t, start, all, parent) == Resolve(t, ip, Components(p), parent)
      invariant Components(p) != [] ==> all != [] && all[|all| - 1] == Components(p)[|Components(p)| - 1]
      decreases |p|
    {
      var sk := Skipelem(p, name);
      if sk.NoName? {
        break;
      }
      name := sk.name;
      ResolveStep(t, ip, Components(p), parent);
      DirsOf(fs, dirs, ip);
      if ip !in dirs {
        return None, name;
      }
      if parent && sk.rest == [] {
        return Some(ip), name;
      }
      var next := LookupIn(fs, dirs, ip, name);
      assert Components(p)[1..] == Components(sk.rest);
      if next.None? {
        return None, name;
      }
      ip := next.value;
      p := sk.rest;
    }
    AtTheEnd(t, ip);
    if parent {
      return None, name;
    }
    return Some(ip), name;
  }

  lemma {:induction false} DirsOf(fs: FileSystem, dirs: set<nat>, d: nat)
    requires fs.Valid() && TreeOk(fs, dirs)
    ensures d in TreeOf(fs, dirs) <==> d in dirs
  {
  }

  lemma {:induction false} AtTheEnd(t: Tree, cur: nat)
    ensures Resolve(t, cur, [], true) == None && Resolve(t, cur, [], false) == Some(cur)
  {
  }
}
