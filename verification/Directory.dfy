/**
  Directories as files of 16-byte slots, names as C strings cut to 14 bytes, and the walk along
  a path.
 */
module Directory {
  import opened Blocks
  import opened Inodes
  import opened FileSystem

  const DIRSIZ := 14
  const SLOT := 16

  type Name = seq<Byte>

  // ---------------------------------------------------------------- names

  /** p[k] of a C string given by its characters; past them lies the terminator. */
  function At(p: seq<Byte>, k: nat): (x: Byte)
  {
    if k < |p| then p[k] else 0
  }

  /** The string at p, of which at most n bytes are looked at. */
  function Cut(p: seq<Byte>, n: nat): (r: Name)
  {
    if n == 0 || At(p, 0) == 0 then [] else [p[0]] + Cut(p[1..], n - 1)
  }

  lemma {:induction false} CutStep(p: seq<Byte>, n: nat, k: nat)
    requires k <= |p|
    ensures Cut(p[k..], n) == if n == 0 || At(p, k) == 0 then [] else [p[k]] + Cut(p[k + 1..], n - 1)
  {
    if k < |p| {
      assert p[k..][1..] == p[k + 1..];
    }
  }

  /** strncmp as namecmp uses it: zero exactly when the cut strings are equal. */
  method Strncmp(p: seq<Byte>, q: seq<Byte>, n: nat) returns (r: int)
    ensures r == 0 <==> Cut(p, n) == Cut(q, n)
  {
    var k := 0;
    assert p[0..] == p && q[0..] == q;
    while k < n && At(p, k) != 0 && At(p, k) == At(q, k)
      invariant 0 <= k <= n && k <= |p| && k <= |q|
      invariant Cut(p, n) == Cut(q, n) <==> Cut(p[k..], n - k) == Cut(q[k..], n - k)
    {
      CutStep(p, n - k, k);
      CutStep(q, n - k, k);
      SameHead(p[k], Cut(p[k + 1..], n - k - 1), Cut(q[k + 1..], n - k - 1));
      k := k + 1;
    }
    if k == n {
      return 0;
    }
    CutStep(p, n - k, k);
    CutStep(q, n - k, k);
    return At(p, k) - At(q, k);
  }

  lemma {:induction false} SameHead(x: Byte, s: Name, t: Name)
    ensures [x] + s == [x] + t <==> s == t
  {
    assert ([x] + s)[1..] == s && ([x] + t)[1..] == t;
  }

  function Zeros(n: nat): (r: seq<Byte>)
  {
    seq(n, _ => 0)
  }

  /** The cut string, padded with zeros to n bytes. */
  function Padded(t: seq<Byte>, n: nat): (r: seq<Byte>)
    ensures |r| == n
  {
    CutShort(t, n);
    Cut(t, n) + Zeros(n - |Cut(t, n)|)
  }

  lemma {:induction false} CutShort(t: seq<Byte>, n: nat)
    ensures |Cut(t, n)| <= n && |Cut(t, n)| <= |t| && Cut(t, n) == t[..|Cut(t, n)|]
    ensures forall k :: 0 <= k < |Cut(t, n)| ==> Cut(t, n)[k] != 0
    ensures |Cut(t, n)| < n ==> At(t, |Cut(t, n)|) == 0
    decreases n
  {
    if n > 0 && At(t, 0) != 0 {
      CutShort(t[1..], n - 1);
    }
  }

  /** What makes a string the cut of another. */
  lemma {:induction false} CutIs(t: seq<Byte>, n: nat, m: nat)
    requires m <= n && m <= |t| && (m < n ==> At(t, m) == 0)
    requires forall k :: 0 <= k < m ==> t[k] != 0
    ensures Cut(t, n) == t[..m]
    decreases n
  {
    if m > 0 {
      CutIs(t[1..], n - 1, m - 1);
    }
  }

  /** strncpy: n bytes, of which a later comparison sees the same name. */
  method Strncpy(t: seq<Byte>, n: nat) returns (s: seq<Byte>)
    ensures s == Padded(t, n)
  {
    CutShort(t, n);
    ghost var m := |Cut(t, n)|;
    s := [];
    while |s| < n && At(t, |s|) != 0
      invariant |s| <= m && s == t[..|s|]
    {
      s := s + [t[|s|]];
    }
    while |s| < n
      invariant m <= |s| <= n
      invariant s == Cut(t, n) + Zeros(|s| - m)
    {
      s := s + [0];
    }
  }

  lemma {:induction false} CutPadded(t: seq<Byte>, n: nat)
    ensures Cut(Padded(t, n), n) == Cut(t, n)
  {
    CutShort(t, n);
    CutIs(Padded(t, n), n, |Cut(t, n)|);
  }

  // ---------------------------------------------------------------- slots

  /** A directory file: whole slots. */
  predicate Slots(c: seq<Byte>)
  {
    |c| % SLOT == 0
  }

  function SlotCount(c: seq<Byte>): (n: nat)
  {
    |c| / SLOT
  }

  function Slot(c: seq<Byte>, k: nat): (e: seq<Byte>)
    requires k < SlotCount(c)
    ensures |e| == SLOT
  {
    c[SLOT * k..SLOT * k + SLOT]
  }

  /** de.inum: 16 bits, low byte first. */
  function Inum(e: seq<Byte>): (n: nat)
    requires |e| == SLOT
    ensures n < 0x1_0000
  {
    var lo: int, hi: int := e[0], e[1];
    lo + 0x100 * hi
  }

  function NameOf(e: seq<Byte>): (n: Name)
    requires |e| == SLOT
  {
    Cut(e[2..], DIRSIZ)
  }

  /** A struct dirent; storing the inode number cuts it to 16 bits. */
  function Dirent(name: seq<Byte>, inum: nat): (e: seq<Byte>)
    ensures |e| == SLOT
    ensures Inum(e) == inum % 0x1_0000 && NameOf(e) == Cut(name, DIRSIZ)
  {
    CutPadded(name, DIRSIZ);
    var head: seq<Byte> := [inum % 0x1_0000 % 0x100, inum % 0x1_0000 / 0x100];
    assert (head + Padded(name, DIRSIZ))[2..] == Padded(name, DIRSIZ);
    head + Padded(name, DIRSIZ)
  }

  /** On disk an entry is a number in two bytes, low byte first, and fourteen bytes of name. */
  lemma {:induction false} EntryBytes(c: seq<Byte>, k: nat, name: seq<Byte>, inum: nat)
    requires 16 * k + 16 <= |c|
    ensures k < SlotCount(c)
    ensures Inum(Slot(c, k)) == LittleEndian(c[16 * k..16 * k + 2]) && NameOf(Slot(c, k)) == Cut(c[16 * k + 2..16 * k + 16], 14)
    ensures LittleEndian(Dirent(name, inum)[..2]) == inum % 0x1_0000 && Dirent(name, inum)[2..] == Padded(name, 14)
  {
    TwoBytes(Slot(c, k));
    TwoBytes(Dirent(name, inum));
    assert Slot(c, k)[..2] == c[16 * k..16 * k + 2] && Slot(c, k)[2..] == c[16 * k + 2..16 * k + 16];
    hide Padded, Cut;
    assert Dirent(name, inum)[2..] == Padded(name, DIRSIZ);
  }

  lemma {:induction false} TwoBytes(e: seq<Byte>)
    requires |e| == SLOT
    ensures LittleEndian(e[..2]) == Inum(e)
  {
    assert e[..2][1..] == [e[1]];
    assert LittleEndian([e[1]]) == e[1] as int;
  }

  ghost predicate Live(c: seq<Byte>, k: nat)
  {
    k < SlotCount(c) && Inum(Slot(c, k)) != 0
  }

  /** Live slot k carries name n. */
  ghost predicate Holds(c: seq<Byte>, k: nat, n: Name)
  {
    Live(c, k) && NameOf(Slot(c, k)) == n
  }

  /** No name twice. */
  ghost predicate DirOk(c: seq<Byte>)
  {
    Slots(c) && forall j, k :: Live(c, j) && Live(c, k) && NameOf(Slot(c, j)) == NameOf(Slot(c, k)) ==> j == k
  }

  ghost predicate Present(c: seq<Byte>, n: Name)
  {
    exists k: nat :: Holds(c, k, n)
  }

  ghost function SlotFor(c: seq<Byte>, n: Name): (k: nat)
    requires Present(c, n)
    ensures Holds(c, k, n)
  {
    var k: nat :| Holds(c, k, n);
    k
  }

  ghost function Names(c: seq<Byte>): (s: set<Name>)
    ensures forall n :: n in s <==> Present(c, n)
  {
    var s := set k | 0 <= k < SlotCount(c) && Live(c, k) :: NameOf(Slot(c, k));
    assert forall n :: n in s <==> Present(c, n) by {
      forall n
        ensures n in s <==> Present(c, n)
      {
        if Present(c, n) {
          var k: nat :| Holds(c, k, n);
          assert NameOf(Slot(c, k)) in s;
        }
        if n in s {
          var k :| 0 <= k < SlotCount(c) && Live(c, k) && n == NameOf(Slot(c, k));
          assert Holds(c, k, n);
        }
      }
    }
    s
  }

  /** The directory as a finite map from names to inode numbers. */
  ghost function DirMap(c: seq<Byte>): (m: map<Name, nat>)
  {
    map n | n in Names(c) :: Inum(Slot(c, SlotFor(c, n)))
  }

  lemma {:induction false} MapEntry(c: seq<Byte>, k: nat, n: Name)
    requires DirOk(c) && Holds(c, k, n)
    ensures n in DirMap(c) && DirMap(c)[n] == Inum(Slot(c, k))
  {
    assert Present(c, n);
    assert Holds(c, SlotFor(c, n), n);
  }

  /** Every map that says of each live slot what the slot says, and no more, is the directory's map. */
  lemma {:induction false} IsMap(c: seq<Byte>, m: map<Name, nat>)
    requires DirOk(c)
    requires forall k: nat :: Live(c, k) ==> NameOf(Slot(c, k)) in m && m[NameOf(Slot(c, k))] == Inum(Slot(c, k))
    requires forall n :: n in m ==> Present(c, n)
    ensures DirMap(c) == m
  {
    forall n
      ensures n in DirMap(c) <==> n in m
      ensures n in m ==> DirMap(c)[n] == m[n]
    {
      if n in DirMap(c) {
        var k := SlotFor(c, n);
        assert Live(c, k);
      }
    }
  }

  /** The entry that results from linking inode inum under a new name is that entry exactly when inum is a nonzero 16-bit number. */
  lemma {:induction false} EntryIsInum(m: map<Name, nat>, n: Name, inum: nat)
    requires n !in m
    ensures WithEntry(m, n, inum % 0x1_0000) == m[n := inum] <==> 0 < inum < 0x1_0000
  {
    assert n in m[n := inum] && m[n := inum][n] == inum;
    if inum % 0x1_0000 != 0 {
      assert m[n := inum % 0x1_0000][n] == inum % 0x1_0000;
    }
  }

  // ---------------------------------------------------------------- writing a slot

  /** An entry for inode 0 is none. */
  function WithEntry(m: map<Name, nat>, n: Name, inum: nat): (r: map<Name, nat>)
  {
    if inum == 0 then m else m[n := inum]
  }

  lemma {:induction false} SlotAfter(c: seq<Byte>, k: nat, e: seq<Byte>, j: nat)
    requires Slots(c) && k <= SlotCount(c) && |e| == SLOT && SLOT * k <= |c|
    ensures
      var c' := Overwrite(c, SLOT * k, e);
      && Slots(c') && SlotCount(c') == (if k == SlotCount(c) then k + 1 else SlotCount(c))
      && (j < SlotCount(c') ==> Slot(c', j) == if j == k then e else Slot(c, j))
  {
    var c' := Overwrite(c, SLOT * k, e);
    if j < SlotCount(c') && j != k {
      assert SLOT * j + SLOT <= SLOT * k || SLOT * j >= SLOT * k + SLOT;
      assert Slot(c', j) == Slot(c, j);
    }
  }

  /** Storing an entry under a new name in a free slot, or after the last, adds exactly that entry. */
  lemma {:induction false} LinkedMap(c: seq<Byte>, k: nat, name: seq<Byte>, inum: nat)
    requires DirOk(c) && k <= SlotCount(c) && !Live(c, k) && SLOT * k <= |c|
    requires Cut(name, DIRSIZ) !in DirMap(c)
    ensures
      var c' := Overwrite(c, SLOT * k, Dirent(name, inum));
      && DirOk(c')
      && DirMap(c') == WithEntry(DirMap(c), Cut(name, DIRSIZ), inum % 0x1_0000)
  {
    hide Slot, Slots, SlotCount, Cut, NameOf, Inum, Dirent;
    var e, n := Dirent(name, inum), Cut(name, DIRSIZ);
    var c' := Overwrite(c, SLOT * k, e);
    SlotAfter(c, k, e, 0);
    forall j: nat
      ensures Live(c', j) <==> if j == k then inum % 0x1_0000 != 0 else Live(c, j)
      ensures j < SlotCount(c') ==> Slot(c', j) == if j == k then e else Slot(c, j)
    {
      SlotAfter(c, k, e, j);
    }
    hide Overwrite, Live;
    ReplacedSlot(c, c', k, n, inum % 0x1_0000);
  }

  /** Slot k of c, which was not live, became an entry for n, or stays dead if x is 0. */
  lemma {:induction false} ReplacedSlot(c: seq<Byte>, c': seq<Byte>, k: nat, n: Name, x: nat)
    requires DirOk(c) && Slots(c') && !Live(c, k) && n !in DirMap(c)
    requires forall j: nat :: Live(c', j) <==> if j == k then x != 0 else Live(c, j)
    requires forall j: nat :: Live(c, j) ==> j < SlotCount(c) && j < SlotCount(c') && Slot(c', j) == Slot(c, j)
    requires x != 0 ==> k < SlotCount(c') && NameOf(Slot(c', k)) == n && Inum(Slot(c', k)) == x
    ensures DirOk(c') && DirMap(c') == if x == 0 then DirMap(c) else DirMap(c)[n := x]
  {
    hide Slot, Slots, SlotCount, Cut, NameOf, Inum;
    var m := if x == 0 then DirMap(c) else DirMap(c)[n := x];
    forall j: nat | Live(c, j)
      ensures NameOf(Slot(c, j)) != n && NameOf(Slot(c, j)) in DirMap(c) && DirMap(c)[NameOf(Slot(c, j))] == Inum(Slot(c, j))
    {
      MapEntry(c, j, NameOf(Slot(c, j)));
    }
    forall q | q in m
      ensures Present(c', q)
    {
      if q in DirMap(c) {
        var j := SlotFor(c, q);
        assert Holds(c', j, q);
      } else {
        assert Holds(c', k, q);
      }
    }
    IsMap(c', m);
  }

  /** Zeroing a live slot removes exactly its entry. */
  lemma {:induction false} UnlinkedMap(c: seq<Byte>, k: nat)
    requires DirOk(c) && Live(c, k) && SLOT * k <= |c|
    ensures
      var c' := Overwrite(c, SLOT * k, Zeros(SLOT));
      DirOk(c') && DirMap(c') == DirMap(c) - {NameOf(Slot(c, k))}
  {
    hide Slot, Slots, SlotCount, NameOf, Overwrite;
    var e := Zeros(SLOT);
    assert Inum(e) == 0;
    var c' := Overwrite(c, SLOT * k, e);
    SlotAfter(c, k, e, 0);
    forall j: nat
      ensures Live(c', j) <==> j != k && Live(c, j)
      ensures j < SlotCount(c') && j != k ==> Slot(c', j) == Slot(c, j)
    {
      SlotAfter(c, k, e, j);
    }
    hide Inum, Live;
    DroppedSlot(c, c', k);
  }

  lemma {:induction false} DroppedSlot(c: seq<Byte>, c': seq<Byte>, k: nat)
    requires DirOk(c) && Slots(c') && Live(c, k)
    requires forall j: nat :: Live(c', j) <==> j != k && Live(c, j)
    requires forall j: nat :: Live(c, j) && j != k ==> j < SlotCount(c') && Slot(c', j) == Slot(c, j)
    ensures DirOk(c') && DirMap(c') == DirMap(c) - {NameOf(Slot(c, k))}
  {
    hide Slot, Slots, SlotCount, Cut, NameOf, Inum;
    var m := DirMap(c) - {NameOf(Slot(c, k))};
    forall j: nat | Live(c', j)
      ensures NameOf(Slot(c', j)) in m && m[NameOf(Slot(c', j))] == Inum(Slot(c', j))
    {
      MapEntry(c, j, NameOf(Slot(c, j)));
    }
    forall q | q in m
      ensures Present(c', q)
    {
      var j := SlotFor(c, q);
      assert Holds(c', j, q);
    }
    IsMap(c', m);
  }

  // ---------------------------------------------------------------- the operations

  ghost function FileBytes(fs: FileSystem, i: nat): (c: seq<Byte>)
    requires fs.Valid() && i < |fs.inodes|
    reads fs
    ensures |c| == fs.inodes[i].size <= MAXFILE * BSIZE
  {
    assert NoHoles(fs.blk, fs.inodes[i]);
    Contents(fs.blk, fs.inodes[i])
  }

  /** The files other than d are as they were. */
  ghost predicate OtherFilesKept(blk: seq<Block>, inodes: seq<Inode>, blk': seq<Block>, inodes': seq<Inode>, d: nat)
  {
    && |inodes'| == |inodes|
    && forall k :: 0 <= k < |inodes| && k != d ==>
      inodes[k].size <= MAXFILE * BSIZE && inodes'[k].size <= MAXFILE * BSIZE && Contents(blk', inodes'[k]) == Contents(blk, inodes[k])
  }

  lemma {:induction false} AllFilesKept(fs: FileSystem, d: nat)
    requires fs.Valid()
    ensures OtherFilesKept(fs.blk, fs.inodes, fs.blk, fs.inodes, d)
  {
    hide Owns, Bits;
    assert forall k :: 0 <= k < |fs.inodes| ==> NoHoles(fs.blk, fs.inodes[k]);
  }

  lemma {:induction false} SlotBounds(c: seq<Byte>, k: nat)
    requires Slots(c)
    ensures k < SlotCount(c) <==> SLOT * k < |c|
    ensures k < SlotCount(c) ==> SLOT * k + SLOT <= |c| && Slot(c, k) == c[SLOT * k..SLOT * k + SLOT]
    ensures k == SlotCount(c) ==> SLOT * k == |c|
  {
  }

  /** readi of one slot; a short read would be a panic. */
  method ReadSlot(fs: FileSystem, d: nat, k: nat) returns (de: Option<seq<Byte>>)
    requires fs.Valid() && d < |fs.inodes| && Slots(FileBytes(fs, d)) && k < SlotCount(FileBytes(fs, d))
    modifies fs`blk, fs`inodes, fs`owner, fs`logged
    ensures fs.Valid() && fs.blk == old(fs.blk) && fs.inodes == old(fs.inodes) && fs.owner == old(fs.owner) && fs.logged == old(fs.logged)
    ensures FileBytes(fs, d) == old(FileBytes(fs, d)) && de == Some(Slot(FileBytes(fs, d), k))
  {
    hide fs.Valid, Slots, SlotCount, Slot, Contents;
    SlotBounds(FileBytes(fs, d), k);
    var data := fs.Readi(d, SLOT * k, SLOT);
    if |data| != SLOT {
      return None;
    }
    return Some(data);
  }

  datatype Lookup = Found(inum: nat, slot: nat) | Missing | Panic

  /** dirlookup: what the directory's map says, and the slot that says it; its panic cannot happen. */
  method Dirlookup(fs: FileSystem, d: nat, name: seq<Byte>) returns (r: Lookup)
    requires fs.Valid() && d < |fs.inodes| && DirOk(FileBytes(fs, d))
    modifies fs`blk, fs`inodes, fs`owner, fs`logged
    ensures fs.Valid() && fs.blk == old(fs.blk) && fs.inodes == old(fs.inodes) && fs.owner == old(fs.owner) && fs.logged == old(fs.logged)
    ensures FileBytes(fs, d) == old(FileBytes(fs, d)) && !r.Panic?
    ensures r.Found? <==> Cut(name, DIRSIZ) in DirMap(FileBytes(fs, d))
    ensures r.Found? ==> r.inum == DirMap(FileBytes(fs, d))[Cut(name, DIRSIZ)] && Holds(FileBytes(fs, d), r.slot, Cut(name, DIRSIZ))
  {
    hide fs.Valid, Slots, SlotCount, Slot, Contents, FileBytes, Inum, Cut;
    ghost var c := FileBytes(fs, d);
    var k := 0;
    SlotBounds(c, 0);
    while SLOT * k < fs.inodes[d].size
      invariant fs.Valid() && fs.blk == old(fs.blk) && fs.inodes == old(fs.inodes) && fs.owner == old(fs.owner) && fs.logged == old(fs.logged)
      invariant FileBytes(fs, d) == c && 0 <= k <= SlotCount(c)
      invariant forall j: nat :: j < k ==> !Holds(c, j, Cut(name, DIRSIZ))
      decreases SlotCount(c) - k
    {
      SlotBounds(c, k);
      var de := ReadSlot(fs, d, k);
      if de.None? {
        return Panic;
      }
      if Inum(de.value) != 0 {
        var cmp := Strncmp(name, de.value[2..], DIRSIZ);
        if cmp == 0 {
          MapEntry(c, k, Cut(name, DIRSIZ));
          return Found(Inum(de.value), k);
        }
      }
      k := k + 1;
    }
    SlotBounds(c, k);
    return Missing;
  }

  /** dirlink's search for an empty slot: the first, or else the end of the file. */
  method FindSlot(fs: FileSystem, d: nat) returns (r: Option<nat>)
    requires fs.Valid() && d < |fs.inodes| && Slots(FileBytes(fs, d))
    modifies fs`blk, fs`inodes, fs`owner, fs`logged
    ensures fs.Valid() && fs.blk == old(fs.blk) && fs.inodes == old(fs.inodes) && fs.owner == old(fs.owner) && fs.logged == old(fs.logged)
    ensures FileBytes(fs, d) == old(FileBytes(fs, d)) && r.Some?
    ensures r.value <= SlotCount(FileBytes(fs, d)) && !Live(FileBytes(fs, d), r.value) && forall j: nat :: j < r.value ==> Live(FileBytes(fs, d), j)
  {
    hide fs.Valid, Slots, SlotCount, Slot, Contents, FileBytes, Inum, Cut;
    ghost var c := FileBytes(fs, d);
    var k := 0;
    SlotBounds(c, 0);
    while SLOT * k < fs.inodes[d].size
      invariant fs.Valid() && fs.blk == old(fs.blk) && fs.inodes == old(fs.inodes) && fs.owner == old(fs.owner) && fs.logged == old(fs.logged)
      invariant FileBytes(fs, d) == c && 0 <= k <= SlotCount(c)
      invariant forall j: nat :: j < k ==> Live(c, j)
      decreases SlotCount(c) - k
    {
      SlotBounds(c, k);
      var de := ReadSlot(fs, d, k);
      if de.None? {
        return None;
      }
      if Inum(de.value) == 0 {
        break;
      }
      k := k + 1;
    }
    SlotBounds(c, k);
    return Some(k);
  }

  /** writei of one slot: all of it, or nothing when the file cannot grow. */
  method WriteSlot(fs: FileSystem, d: nat, k: nat, e: seq<Byte>) returns (r: int)
    requires fs.Valid() && d < |fs.inodes| && Slots(FileBytes(fs, d)) && k <= SlotCount(FileBytes(fs, d)) && |e| == SLOT
    modifies fs`blk, fs`inodes, fs`owner, fs`logged
    ensures fs.Valid() && |fs.inodes| == old(|fs.inodes|) && OtherFilesKept(old(fs.blk), old(fs.inodes), fs.blk, fs.inodes, d)
    ensures SLOT * k <= |old(FileBytes(fs, d))|
    ensures FileBytes(fs, d) == if r == SLOT then Overwrite(old(FileBytes(fs, d)), SLOT * k, e) else old(FileBytes(fs, d))
    ensures r != SLOT ==> k == SlotCount(old(FileBytes(fs, d)))
    ensures r != SLOT ==> SLOT * k + SLOT > MAXFILE * BSIZE || forall b :: 0 <= b < fs.sb.size ==> Used(fs.blk, fs.sb, b)
  {
    hide fs.Valid, Slots, SlotCount, Contents, Overwrite, Used, OthersKept, LogBound;
    ghost var c := FileBytes(fs, d);
    SlotBounds(c, k);
    r := fs.Writei(d, SLOT * k, e);
    if r != -1 {
      WholeSlot(k, r);
      OverwriteNothing(c, SLOT * k);
      assert e[..SLOT] == e && e[..0] == [];
    }
  }

  lemma {:induction false} WholeSlot(k: nat, r: nat)
    requires r <= SLOT && (r < SLOT ==> r == 0 || (SLOT * k + r) % BSIZE == 0)
    ensures r == 0 || r == SLOT
  {
  }

  /**
    dirlink: refuses a name that is there already, and otherwise adds exactly one entry to the
    directory's map, unless the file cannot grow.
   */
  method Dirlink(fs: FileSystem, d: nat, name: seq<Byte>, inum: nat) returns (r: int)
    requires fs.Valid() && d < |fs.inodes| && DirOk(FileBytes(fs, d))
    modifies fs`blk, fs`inodes, fs`owner, fs`logged
    ensures fs.Valid() && |fs.inodes| == old(|fs.inodes|) && OtherFilesKept(old(fs.blk), old(fs.inodes), fs.blk, fs.inodes, d) && DirOk(FileBytes(fs, d))
    ensures r == 0 || r == -1
    ensures Cut(name, DIRSIZ) in old(DirMap(FileBytes(fs, d))) ==> r == -1
    ensures r == -1 ==> FileBytes(fs, d) == old(FileBytes(fs, d))
    ensures r == -1 && Cut(name, DIRSIZ) !in old(DirMap(FileBytes(fs, d))) ==>
      && (forall j: nat :: j < SlotCount(FileBytes(fs, d)) ==> Live(FileBytes(fs, d), j))
      && (|FileBytes(fs, d)| + SLOT > MAXFILE * BSIZE || forall b :: 0 <= b < fs.sb.size ==> Used(fs.blk, fs.sb, b))
    ensures r == 0 ==> DirMap(FileBytes(fs, d)) == WithEntry(old(DirMap(FileBytes(fs, d))), Cut(name, DIRSIZ), inum % 0x1_0000)
  {
    hide fs.Valid, Slots, SlotCount, Slot, Contents, FileBytes, Inum, Cut, Overwrite, DirMap, Used, Live, Padded;
    ghost var c := FileBytes(fs, d);
    AllFilesKept(fs, d);
    var l := Dirlookup(fs, d, name);
    if l.Found? {
      return -1;
    }
    var k := FindSlot(fs, d);
    var de := MakeDirent(name, inum);
    var w := WriteSlot(fs, d, k.value, de);
    SlotBounds(c, k.value);
    if w != SLOT {
      return -1;
    }
    LinkedMap(c, k.value, name, inum);
    return 0;
  }

  /** Filling in a struct dirent. */
  method MakeDirent(name: seq<Byte>, inum: nat) returns (de: seq<Byte>)
    ensures de == Dirent(name, inum)
  {
    var s := Strncpy(name, DIRSIZ);
    de := [inum % 0x1_0000 % 0x100, inum % 0x1_0000 / 0x100] + s;
  }

  datatype Unlinked = Done | Refused | Failed

  /**
    The slot part of sys_unlink: "." and ".." and names that are not there are refused, and
    otherwise exactly the name's entry goes; its panic cannot happen.
   */
  method Unlink(fs: FileSystem, d: nat, name: seq<Byte>) returns (r: Unlinked)
    requires fs.Valid() && d < |fs.inodes| && DirOk(FileBytes(fs, d))
    modifies fs`blk, fs`inodes, fs`owner, fs`logged
    ensures fs.Valid() && |fs.inodes| == old(|fs.inodes|) && OtherFilesKept(old(fs.blk), old(fs.inodes), fs.blk, fs.inodes, d) && DirOk(FileBytes(fs, d)) && !r.Failed?
    ensures r.Done? <==> Cut(name, DIRSIZ) in old(DirMap(FileBytes(fs, d))) && Cut(name, DIRSIZ) != Dot() && Cut(name, DIRSIZ) != DotDot()
    ensures r.Refused? ==> FileBytes(fs, d) == old(FileBytes(fs, d))
    ensures r.Done? ==> DirMap(FileBytes(fs, d)) == old(DirMap(FileBytes(fs, d))) - {Cut(name, DIRSIZ)}
  {
    Dots();
    hide fs.Valid, Slots, SlotCount, Slot, Contents, FileBytes, Inum, Cut, Overwrite, DirMap, Used, NameOf;
    ghost var c := FileBytes(fs, d);
    AllFilesKept(fs, d);
    var isDot := Strncmp(name, Dot(), DIRSIZ);
    var isDotDot := Strncmp(name, DotDot(), DIRSIZ);
    if isDot == 0 || isDotDot == 0 {
      return Refused;
    }
    var l := Dirlookup(fs, d, name);
    if !l.Found? {
      return Refused;
    }
    var w := WriteSlot(fs, d, l.slot, Zeros(SLOT));
    if w != SLOT {
      return Failed;
    }
    SlotBounds(c, l.slot);
    UnlinkedMap(c, l.slot);
    return Done;
  }

  function Dot(): (r: Name) { [46] }

  function DotDot(): (r: Name) { [46, 46] }

  lemma {:induction false} Dots()
    ensures Cut(Dot(), DIRSIZ) == Dot() && Cut(DotDot(), DIRSIZ) == DotDot()
  {
    CutIs(Dot(), DIRSIZ, 1);
    CutIs(DotDot(), DIRSIZ, 2);
  }
}
