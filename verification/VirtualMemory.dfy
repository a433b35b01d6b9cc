/**
  The kernel's page table code: the page allocator, walk, mappages, uvmunmap, uvmcopy, freewalk, and the
  copies between user and kernel memory.  Addresses are split into page number and offset throughout:
  a page-aligned address is its page number.
*/
module VirtualMemory {
  import opened Machine
  import opened PageTable

  class Vm {
    const fan: nat
    const pg: nat
    const top: nat
    const lo: nat
    const hi: nat
    var page: seq<Page>
    var free: seq<nat>
    ghost var owner: seq<Owner>

    ghost function Snap(): Mem
      reads this
    {
      Mem(fan, pg, top, lo, hi, page, free, owner)
    }

    ghost predicate Valid()
      reads this
    {
      Inv(Snap()) && Spans(top, fan)
    }

    /** kinit: a machine with pages `0..h`, of which kfree puts `l..h` on the free list one by one. */
    constructor (f: nat, p: nat, m: nat, l: nat, h: nat)
      requires f > 0 && p > 0 && Spans(m, f) && l <= h
      ensures Valid() && fan == f && pg == p && top == m && lo == l && hi == h && |page| == h
      ensures forall x: nat :: x < h ==> (x in free <==> l <= x)
    {
      fan, pg, top, lo, hi := f, p, m, l, h;
      page, free, owner := seq(h, _ => Filled(p, 0)), [], seq(h, _ => Kernel);
      new;
      var c := l;
      while c < h
        invariant l <= c <= h && Sizes(Snap()) && |page| == h && |free| == c - l
        invariant forall j :: 0 <= j < |free| ==> free[j] == c - 1 - j
        invariant forall x: nat :: x < h ==> owner[x] == if l <= x < c then Free else Kernel
      {
        ghost var was := free;
        var ok := Kfree(c);
        assert free[0] == c && forall j :: 0 < j < |free| ==> free[j] == was[j - 1];
        c := c + 1;
      }
      KinitInv(Snap());
    }

    /** An empty page table, or -1 when memory has run out. */
    method UvmCreate() returns (root: int)
      requires Valid()
      modifies this`page, this`free, this`owner
      ensures Valid() && fan > 0 && Keeps(old(Snap()), Snap()) && SameMaps(old(Snap()), Snap())
      ensures root < 0 ==> Snap() == old(Snap()) && free == []
      ensures root >= 0 ==> IsRoot(Snap(), root) && forall v: nat :: InRange(v, fan) ==> Lookup(Snap(), root, v) == 0
    {
      hide InvBut, Lookup, InRange, Keeps, SameMaps;
      FaultStarts(Snap());
      ghost var m0 := Snap();
      root := Kalloc();
      if root == -1 {
        return;
      }
      assert Snap() == Kalloced(m0) && Sizes(Snap());
      page := page[root := ZeroTable(fan)];
      owner := owner[root := Node(root, 3, 0, 0)];
      CreateKeeps(m0, Snap(), root);
    }

    /** The head of the free list, filled with junk, or -1 when it is empty. */
    method Kalloc() returns (c: int)
      requires Sizes(Snap()) && FreeOk(Snap())
      modifies this`page, this`free, this`owner
      ensures old(free) == [] ==> c == -1 && Snap() == old(Snap())
      ensures old(free) != [] ==> c == old(free)[0] < |page| && Snap() == Kalloced(old(Snap()))
    {
      if free == [] {
        return -1;
      }
      c := free[0];
      free := free[1..];
      page := page[c := Filled(pg, 5)];
      owner := owner[c := Loose];
    }

    /** False is the panic for a page outside the pool. */
    method Kfree(c: nat) returns (ok: bool)
      requires Sizes(Snap())
      modifies this`page, this`free, this`owner
      ensures ok == (lo <= c < hi)
      ensures if ok then Snap() == Kfreed(old(Snap()), c) else Snap() == old(Snap())
    {
      if !(lo <= c < hi) {
        return false;
      }
      page := page[c := Filled(pg, 1)];
      free := [c] + free;
      owner := owner[c := Free];
      return true;
    }

    /** The table that holds the entry for `vpn`, or -1.  With `alloc` it creates missing tables, which is
        invisible in every flat map; it fails exactly when there are fewer free pages than tables missing, and
        panics (`ok` is false) exactly at or beyond MAXVA. */
    method Walk(root: nat, vpn: nat, alloc: bool) returns (t: int, ok: bool)
      requires Valid() && IsRoot(Snap(), root)
      modifies this`page, this`free, this`owner
      ensures Valid() && Keeps(old(Snap()), Snap()) && SameMaps(old(Snap()), Snap()) && IsRoot(Snap(), root)
      ensures ok == (vpn < top) && fan > 0
      ensures ok ==> t == Path(Snap(), root, vpn, 1)
      ensures !alloc || !ok ==> Snap() == old(Snap())
      ensures ok && alloc && t == -1 ==> free == []
      ensures ok && alloc ==> (t == -1 <==> |old(free)| < Missing(old(Snap()), root, vpn))
      ensures ok && alloc && t != -1 ==> |free| == |old(free)| - Missing(old(Snap()), root, vpn)
    {
      hide InvBut, InRange, Keeps, SameMaps, Path, Linked, Linkable, SetPte, MakePte, ZeroTable, ValidPte, Key, Digit,
        Spans, Missing;
      ghost var m0 := Snap();
      KnowSizes(m0, |m0.page|, 0);
      BelowTop(0, 1, fan);
      if vpn >= top {
        WalkStarts(m0, root, 0);
        return -1, false;
      }
      BelowTop(vpn, top, fan);
      WalkStarts(m0, root, vpn);
      ok := true;
      t := root;
      var level := 2;
      while level > 0
        invariant ok && 0 <= level <= 2 && Inv(Snap()) && Sizes(Snap()) && IsRoot(Snap(), root)
        invariant Keeps(m0, Snap()) && SameMaps(m0, Snap()) && (!alloc ==> Snap() == m0)
        invariant t == Path(Snap(), root, vpn, level + 1) && IsTable(Snap(), t)
        invariant |m0.free| - |free| == Missing(m0, root, vpn) - Missing(Snap(), root, vpn)
      {
        ghost var m := Snap();
        var key := Key(vpn, level, fan);
        var i := Digit(key, fan);
        WalkStep(m, root, vpn, level);
        var pte := page[t].ptes[i];
        if ValidPte(pte) {
          t := Ppn(pte);
        } else {
          if !alloc {
            WalkGap(m, root, vpn, level);
            return -1, true;
          }
          KnowSizes(m, |m.page|, 0);
          MissingFrom(m, root, vpn, level);
          var c := Kalloc();
          if c == -1 {
            WalkGap(m, root, vpn, level);
            return -1, true;
          }
          GrowPath(m, root, vpn, level);
          GrownMissing(m, root, vpn, level);
          page := page[c := ZeroTable(fan)];
          owner := owner[c := Node(owner[t].root, owner[t].d - 1, key, t)];
          page := page[t := Table(page[t].ptes[i := MakePte(c, V)])];
          LinkedIs(Kalloced(m), Snap(), t, key, c);
          KeepsTrans(m0, m, Snap());
          MapsTrans(m0, m, Snap());
          ReachedTable(Snap(), root, vpn, level);
          t := c;
        }
        level := level - 1;
      }
      NothingMissing(Snap(), root, vpn);
    }

    /** Maps `n` pages from `vpn` on to the physical pages from `ppn` on; with `own` the page table takes
        them over.  Exactly the first `done` of the range change in the flat map, nothing else in any map
        changes, and `done` is `n` unless memory ran out, page `vpn + done` was mapped already, or it lies at or
        beyond MAXVA. */
    method MapPages(root: nat, vpn: nat, n: nat, ppn: nat, perm: nat, own: bool) returns (res: MapResult, done: nat)
      requires Valid() && IsRoot(Snap(), root) && perm < 1024 && Leafy(perm)
      requires forall x: nat :: ppn <= x < ppn + n ==> CanMap(Snap(), x, perm, own)
      modifies this`page, this`free, this`owner
      ensures Valid() && done <= n && IsRoot(Snap(), root)
      ensures MapsAfter(old(Snap()), Snap(), root, vpn, done, ppn, perm)
              && PagesAfter(old(Snap()), Snap(), root, vpn, done, ppn, own)
      ensures match res
              case Done => done == n > 0 && vpn + n <= top
              case NoMemory => done < n && vpn + done < top && free == [] && fan > 0
                && Missing(Snap(), root, vpn + done) > 0
              case ZeroSize => done == n == 0
              case Remap => done < n && vpn + done < top && ValidPte(Lookup(old(Snap()), root, vpn + done))
              case BeyondMax => done < n && vpn + done >= top
      ensures |old(free)| <= |free| + 2 * done + (if res.NoMemory? then 1 else if res.Remap? then 2 else 0)
      ensures n == 1 && vpn < top ==> fan > 0 && (res.NoMemory? <==> |old(free)| < Missing(old(Snap()), root, vpn))
      ensures n == 1 && res.Done? ==> |free| == |old(free)| - Missing(old(Snap()), root, vpn)
    {
      hide InvBut, InRange, Keeps, SameMaps, Path, Lookup, MappedPage, Mappable, SetPte, MakePte, WithV, ValidPte,
        Leafy, UserOk, Ppn, Digit, MapsAfter, PagesAfter, CanMap, Missing;
      ghost var m0 := Snap();
      MapStarts(m0, root, vpn, ppn, perm, own);
      done := 0;
      if n == 0 {
        return ZeroSize, 0;
      }
      while true
        invariant done < n && Inv(Snap()) && IsRoot(Snap(), root)
        invariant MapsAfter(m0, Snap(), root, vpn, done, ppn, perm) && PagesAfter(m0, Snap(), root, vpn, done, ppn, own)
        invariant |m0.free| <= |free| + 2 * done && (done == 0 ==> Snap() == m0)
        decreases n - done
      {
        ghost var m1 := Snap();
        var t, fine := Walk(root, vpn + done, true);
        ghost var m2 := Snap();
        if !fine {
          return BeyondMax, done;
        }
        InTop(m2, vpn + done);
        MapWalked(m0, m1, m2, root, vpn, done, ppn, perm, own);
        if t == -1 {
          SomeMissing(m2, root, vpn + done);
          return NoMemory, done;
        }
        PathIsNat(m2, root, vpn + done);
        LookupAt(m2, root, vpn + done, t);
        MapReached(m0, m2, root, vpn, done, ppn, perm, own, t);
        var i := Digit(vpn + done, fan);
        if ValidPte(page[t].ptes[i]) {
          return Remap, done;
        }
        var pte := MakePte(ppn + done, WithV(perm));
        page := page[t := Table(page[t].ptes[i := pte])];
        if own {
          owner := owner[ppn + done := Node(root, 0, vpn + done, t)];
        }
        MappedIs(m2, Snap(), t, vpn + done, pte, own);
        MapOne(m0, m2, root, vpn, done, ppn, perm, own, t, pte);
        done := done + 1;
        if done == n {
          return Done, done;
        }
      }
    }

    /** Removes the `n` mappings from `vpn` on, if any, and nothing else; with `dofree` exactly the pages
        mapped there go back to the free list, so that kfree does not panic.  False is walk's panic, which comes
        exactly when the range reaches beyond MAXVA; the pages below have been unmapped by then. */
    method Unmap(root: nat, vpn: nat, n: nat, dofree: bool) returns (ok: bool)
      requires Valid() && IsRoot(Snap(), root)
      requires dofree ==> forall v: nat :: vpn <= v < vpn + n && v < top ==> OwnedOrNone(Snap(), root, v)
      modifies this`page, this`free, this`owner
      ensures Valid() && IsRoot(Snap(), root) && (ok <==> n == 0 || vpn + n <= top)
      ensures var done := if ok then n else if vpn < top then top - vpn else 0;
              MapsCleared(old(Snap()), Snap(), root, vpn, done)
                && PagesCleared(old(Snap()), Snap(), root, vpn, done, dofree)
    {
      hide InvBut, InRange, SameMaps, Keeps, Path, Lookup, SetPte, ValidPte, Ppn, Digit, MapsCleared, PagesCleared,
        OwnedOrNone, EntryOk, Up;
      ghost var m0 := Snap();
      ClearStarts(m0, root, vpn, dofree);
      var a := vpn;
      ok := true;
      while a < vpn + n
        invariant vpn <= a <= vpn + n && (a == vpn || a <= top) && ok && Inv(Snap()) && IsRoot(Snap(), root)
                  && Sizes(Snap())
        invariant MapsCleared(m0, Snap(), root, vpn, a - vpn) && PagesCleared(m0, Snap(), root, vpn, a - vpn, dofree)
      {
        ghost var m := Snap();
        var t, fine := Walk(root, a, false);
        if !fine {
          return false;
        }
        InTop(m, a);
        PathIsNat(m, root, a);
        if t == -1 {
          NoTableNoLookup(m, root, a);
          ClearSkip(m0, m, root, vpn, a - vpn, dofree);
        } else {
          LookupAt(m, root, a, t);
          var i := Digit(a, fan);
          if !ValidPte(page[t].ptes[i]) {
            InvalidIsZero(m, root, a, t);
            ClearSkip(m0, m, root, vpn, a - vpn, dofree);
          } else {
            ghost var pte := page[t].ptes[i];
            ClearFinds(m0, m, root, vpn, a - vpn, dofree, t);
            if dofree {
              ok := Kfree(Ppn(page[t].ptes[i]));
            } else {
              owner := if owner[Ppn(pte)].Node? then owner[Ppn(pte) := Loose] else owner;
            }
            page := page[t := Table(page[t].ptes[i := 0])];
            ClearOne(m0, m, Snap(), root, vpn, a - vpn, dofree, t);
          }
        }
        a := a + 1;
      }
    }

    /** Frees the table `t` and all tables below it, once each.  There are no leaves left, so it does not
        panic; only tables of this root change hands. */
    method FreeWalk(t: nat, ghost root: nat, ghost d: nat) returns (ok: bool)
      requires Valid() && t < |page| == |owner| && owner[t].Node? && owner[t].d == d >= 1 && owner[t].root == root
      requires NoLeaves(Snap(), root)
      modifies this`page, this`free, this`owner
      ensures ok && fan > 0 && InvBut(Snap(), ParentPage(old(Snap()), t), ParentEntry(old(Snap()), t))
      ensures TablesGone(old(Snap()), Snap(), root, d, |old(page)|) && |owner| == |page| == |old(page)|
              && owner[t].Free?
      decreases d
    {
      hide InvBut, ValidPte, Leafy, Ppn, Digit, Up, TablesGone, NoLeaves, ParentPage, ParentEntry, Filled, Emptied;
      ghost var m0 := Snap();
      FreeStarts(m0, t, root, d);
      ok := true;
      var i := 0;
      while i < fan
        invariant 0 <= i <= fan && ok && Inv(Snap()) && Sizes(Snap()) && IsTable(Snap(), t) && owner[t] == m0.owner[t]
        invariant |page| == |m0.page|
        invariant NoLeaves(Snap(), root) && TablesGone(m0, Snap(), root, d - 1, t)
        invariant forall j: nat :: j < i ==> page[t].ptes[j] == 0
      {
        ghost var m := Snap();
        var pte := page[t].ptes[i];
        FreeEntry(m, t, i, root, d);
        if ValidPte(pte) && !Leafy(pte) {
          var child := Ppn(pte);
          ok := FreeWalk(child, root, d - 1);
          ghost var m1 := Snap();
          ChildGone(m, m1, t, i, child, root, d);
          page := page[t := Table(page[t].ptes[i := 0])];
          EntryGone(m0, m, m1, Snap(), t, i, root, d);
        } else if ValidPte(pte) {
          return false;
        }
        i := i + 1;
      }
      ghost var m := Snap();
      FreeTable(m0, m, t, root, d);
      ok := Kfree(t);
    }

    /** uvmfree of a page table whose mappings all lie below page `n`: afterwards every page the table had,
        data and tables alike, is free again, and no other page changed hands. */
    method FreeAll(root: nat, n: nat) returns (ok: bool)
      requires Valid() && IsRoot(Snap(), root)
      requires n <= top && forall v: nat :: v < n ==> OwnedOrNone(Snap(), root, v)
      requires fan > 0 && forall v: nat :: InRange(v, fan) && v >= n ==> Lookup(Snap(), root, v) == 0
      modifies this`page, this`free, this`owner
      ensures ok && Valid() && |owner| == |old(owner)|
      ensures forall x: nat :: x < |owner| ==>
                owner[x] == if old(owner)[x].Node? && old(owner)[x].root == root then Free else old(owner)[x]
    {
      hide InvBut, InRange, Lookup, NoLeaves, TablesGone, MapsCleared, PagesCleared, OwnedOrNone;
      ghost var m0 := Snap();
      KnowSizes(m0, |m0.page|, 0);
      ok := true;
      if n > 0 {
        ok := Unmap(root, 0, n, true);
      } else {
        ClearStarts(m0, root, 0, true);
      }
      ghost var m1 := Snap();
      AllClear(m0, m1, root, n);
      ok := FreeWalk(root, root, 3);
      AllGone(m0, m1, Snap(), root, n);
    }

    /** Copies the first `n` pages of `parent` into `child`, which has none of them.  On success each mapped
        page has a copy of its own with the same flags and bytes; on failure none of them is mapped; either
        way no other mapping, page in use or byte changed.  It cannot fail with three free pages for each page
        mapped: one for the copy and two for tables. */
    method UvmCopy(parent: nat, child: nat, n: nat) returns (ok: bool)
      requires Valid() && IsRoot(Snap(), parent) && IsRoot(Snap(), child) && parent != child
      requires n <= top && fan > 0
      requires forall v: nat :: v < n ==> OwnedOrNone(Snap(), parent, v) && Lookup(Snap(), child, v) == 0
      modifies this`page, this`free, this`owner
      ensures Valid() && Keeps(old(Snap()), Snap()) && OthersSame(old(Snap()), Snap(), child, 0, n)
      ensures ok ==> forall v: nat :: v < n ==> CopiedPage(old(Snap()), Snap(), parent, child, v)
      ensures !ok ==> forall v: nat :: v < n ==> Lookup(Snap(), child, v) == 0
      ensures !ok ==> |old(free)| < 3 * Mapped(old(Snap()), parent, n)
      ensures ok ==> |free| >= |old(free)| - 3 * Mapped(old(Snap()), parent, n)
    {
      hide InvBut, InRange, Lookup, Path, Keeps, SameMaps, OwnedOrNone, MapsAfter, PagesAfter, MapsCleared,
        PagesCleared, ValidPte, Ppn, Flags, Digit, Up, EntryOk, CopyState, CanMap, MakePte, WithV, Leafy, Filled,
        KeepsX, CopiedPage, OthersSame, Missing, Mapped;
      ghost var m0 := Snap();
      KnowSizes(m0, |m0.page|, 0);
      CopyStarts(m0, parent, child);
      PteFacts();
      forall v: nat | v < n ensures InRange(v, fan) {
        BelowTop(v, top, fan);
      }
      var i, failed := 0, false;
      MappedNone(m0, parent);
      while i < n
        invariant i <= n && Inv(Snap()) && Sizes(Snap()) && IsRoot(Snap(), parent) && IsRoot(Snap(), child) && !failed
        invariant CopyState(m0, Snap(), parent, child, i, |m0.page|)
        invariant |m0.free| <= |free| + 3 * Mapped(m0, parent, i)
      {
        ghost var m := Snap();
        var t, fine := Walk(parent, i, false);
        PathIsNat(m, parent, i);
        var pte := 0;
        if t != -1 {
          LookupAt(m, parent, i, t);
          pte := page[t].ptes[Digit(i, fan)];
        } else {
          NoTableNoLookup(m, parent, i);
        }
        if !ValidPte(pte) {
          CopySkip(m0, m, parent, child, i);
          MappedGrows(m0, parent, i, i + 1);
        } else {
          CopyFinds(m0, m, parent, child, i, t);
          MappedOne(m0, parent, i, n);
          var pa, flags := Ppn(pte), Flags(pte);
          var mem := Kalloc();
          if mem == -1 {
            failed := true;
            break;
          }
          page := page[mem := page[pa]];
          ghost var m1 := Snap();
          CopyFilled(m0, m, m1, parent, child, i, pa, flags);
          CopyUnmapped(m0, m1, parent, child, i, mem);
          var res, done := MapPages(child, i, 1, mem, flags, true);
          ghost var m2 := Snap();
          CopyMapped(m0, m1, m2, parent, child, i, mem, pa, flags, res, done);
          if res != Done {
            var freed := Kfree(mem);
            CopyFreed(m0, m2, parent, child, i, mem);
            failed := true;
            break;
          }
        }
        i := i + 1;
      }
      if failed {
        ghost var m := Snap();
        CopyUndo(m0, m, parent, child, i);
        var freed := Unmap(child, 0, i, true);
        CopyFailed(m0, m, Snap(), parent, child, i, n);
        return false;
      }
      CopyDone(m0, Snap(), parent, child, n);
      return true;
    }

    /** The physical page behind user page `vpn`, or -1. */
    method WalkAddr(root: nat, vpn: nat) returns (pa: int)
      requires Valid() && IsRoot(Snap(), root)
      modifies this`page, this`free, this`owner
      ensures Snap() == old(Snap()) && fan > 0
      ensures pa == if vpn < top && UserPte(Lookup(Snap(), root, vpn)) then Ppn(Lookup(Snap(), root, vpn)) else -1
    {
      hide InvBut, Lookup, Path, InRange, ValidPte, Ppn, Digit, Up, EntryOk, UserOk, Keeps, SameMaps;
      KnowSizes(Snap(), |page|, 0);
      PteFacts();
      if vpn >= top {
        return -1;
      }
      BelowTop(vpn, top, fan);
      var t, fine := Walk(root, vpn, false);
      PathIsNat(Snap(), root, vpn);
      if t == -1 {
        NoTableNoLookup(Snap(), root, vpn);
        return -1;
      }
      LookupAt(Snap(), root, vpn, t);
      var pte := page[t].ptes[Digit(vpn, fan)];
      if !ValidPte(pte) {
        return -1;
      }
      if !UserOk(pte) {
        return -1;
      }
      return Ppn(pte);
    }

    /** vmfault: gives an unmapped page below the process size a zeroed page, readable and writable by the
        user; -1 exactly if the page is beyond the size or mapped already, or it cannot be had. */
    method VmFault(root: nat, sz: nat, vpn: nat) returns (pa: int)
      requires Valid() && IsRoot(Snap(), root) && BelowMax(top, pg, sz)
      modifies this`page, this`free, this`owner
      ensures Valid() && fan > 0 && Keeps(old(Snap()), Snap())
      ensures pa < 0 ==> SameMaps(old(Snap()), Snap())
      ensures pa < 0 <==> vpn * pg >= sz || ValidPte(Lookup(old(Snap()), root, vpn)) || Starved(old(Snap()), root, vpn)
      ensures pa < 0 ==> vpn * pg >= sz || ValidPte(Lookup(old(Snap()), root, vpn)) || Starved(Snap(), root, vpn)
      ensures pa >= 0 ==> Faulted(old(Snap()), Snap(), root, sz, vpn, pa)
    {
      hide InvBut, Lookup, Path, InRange, ValidPte, Ppn, Digit, Up, EntryOk, UserOk, Keeps, SameMaps, MapsAfter,
        PagesAfter, CanMap,
        MakePte, WithV, Leafy, Filled, KeepsX, BelowMax, Faulted, Missing;
      ghost var m0 := Snap();
      FaultStarts(m0);
      if vpn * pg >= sz {
        return -1;
      }
      BelowSize(top, pg, sz, vpn);
      BelowTop(vpn, top, fan);
      var t, fine := Walk(root, vpn, false);
      PathIsNat(m0, root, vpn);
      if t != -1 {
        LookupAt(m0, root, vpn, t);
        if ValidPte(page[t].ptes[Digit(vpn, fan)]) {
          return -1;
        }
        InvalidIsZero(m0, root, vpn, t);
      } else {
        NoTableNoLookup(m0, root, vpn);
      }
      var mem := Kalloc();
      if mem == -1 {
        return -1;
      }
      page := page[mem := Filled(pg, 0)];
      ghost var m1 := Snap();
      FaultFilled(m0, m1, root);
      SameMissing(m0, m1, root, vpn);
      var res, done := MapPages(root, vpn, 1, mem, W + U + R, true);
      ghost var m2 := Snap();
      if res != Done {
        FaultFails(m0, m1, m2, root, vpn, mem, res, done);
        var freed := Kfree(mem);
        SameMissing(m2, Snap(), root, vpn);
        return -1;
      }
      FaultWorks(m0, m1, m2, root, sz, vpn, mem);
      return mem;
    }

    /** walkaddr, and vmfault where that finds nothing: the physical page behind a user page. */
    method UserPage(root: nat, sz: nat, vpn: nat) returns (pa: int)
      requires Valid() && IsRoot(Snap(), root) && BelowMax(top, pg, sz)
      modifies this`page, this`free, this`owner
      ensures Valid() && fan > 0 && pg > 0 && IsRoot(Snap(), root) && Keeps(old(Snap()), Snap())
              && SameView(old(Snap()), Snap(), root, sz)
      ensures pa >= 0 ==> vpn < top && UserPte(Lookup(Snap(), root, vpn)) && pa == Ppn(Lookup(Snap(), root, vpn))
      ensures pa < 0 ==> pa == -1
      ensures pa < 0 ==> !Readable(old(Snap()), root, sz, vpn) || Starved(Snap(), root, vpn)
    {
      hide InvBut, Lookup, InRange, ValidPte, Ppn, UserOk, Keeps, SameMaps, BelowMax, Faulted, SameView, ByteAt, FreeOk;
      ghost var m0 := Snap();
      FaultStarts(m0);
      SameMapsView(m0, m0, root, sz);
      pa := WalkAddr(root, vpn);
      if pa == -1 {
        pa := VmFault(root, sz, vpn);
        if pa >= 0 {
          FaultView(m0, Snap(), root, sz, vpn, pa);
        } else {
          SameMapsView(m0, Snap(), root, sz);
          RootKept(m0, Snap(), root);
          pa := -1;
        }
      }
    }

    /** Copies `len` bytes from user address `srcva`.  Success delivers exactly those bytes of the user's
        memory, pages not yet allocated below the size reading as zero; nobody's memory changes.  It fails
        only if the next byte is not the user's to read, or its page is not mapped and cannot be had. */
    method CopyIn(root: nat, sz: nat, srcva: nat, len: nat) returns (ok: bool, dst: seq<byte>)
      requires Valid() && IsRoot(Snap(), root) && BelowMax(top, pg, sz)
      modifies this`page, this`free, this`owner
      ensures Valid() && Sizes(Snap()) && Keeps(old(Snap()), Snap()) && SameView(old(Snap()), Snap(), root, sz)
      ensures ok ==> |dst| == len
      ensures !ok ==> srcva <= srcva + |dst| < srcva + len && pg > 0
      ensures !ok ==> ByteAt(old(Snap()), root, sz, srcva + |dst|) == None
                      || Starved(Snap(), root, Quot(srcva + |dst|, pg))
      ensures forall o: nat :: srcva <= o < srcva + |dst| ==> ByteAt(old(Snap()), root, sz, o) == Some(dst[o - srcva])
    {
      hide InvBut, Lookup, InRange, ValidPte, Ppn, UserOk, Keeps, BelowMax, SameView, ByteAt, FreeOk, Quot, Rest,
        Readable;
      ghost var m0 := Snap();
      FaultStarts(m0);
      SameMapsView(m0, m0, root, sz);
      dst := [];
      var va := srcva;
      while |dst| < len
        invariant |dst| <= len && va == srcva + |dst| && Inv(Snap()) && IsRoot(Snap(), root) && Sizes(Snap()) && pg > 0
        invariant Keeps(m0, Snap()) && SameView(m0, Snap(), root, sz)
        invariant forall o: nat :: srcva <= o < va ==> ByteAt(m0, root, sz, o) == Some(dst[o - srcva])
        decreases len - |dst|
      {
        ghost var m := Snap();
        var vpn, off := Quot(va, pg), Rest(va, pg);
        var pa := UserPage(root, sz, vpn);
        ViewTrans(m0, m, Snap(), root, sz);
        KeepsTrans(m0, m, Snap());
        if pa == -1 {
          if !Starved(Snap(), root, vpn) {
            UnreadableByte(m0, m, root, sz, va);
          }
          return false, dst;
        }
        var n := Min(pg - off, len - |dst|);
        ReadBytes(m0, Snap(), root, sz, va, n);
        dst := dst + page[pa].data[off..off + n];
        va := va + n;
      }
      return true, dst;
    }

    /** Copies `src` to user address `dstva`.  Exactly the first `done` bytes there become those of `src`
        (all of them on success); no other byte of this or any other process changes.  It fails only if some
        byte is not the user's, its page is mapped read-only, or its page is not mapped and cannot be had. */
    method CopyOut(root: nat, sz: nat, dstva: nat, src: seq<byte>) returns (ok: bool, done: nat)
      requires Valid() && IsRoot(Snap(), root) && BelowMax(top, pg, sz)
      modifies this`page, this`free, this`owner
      ensures Valid() && Sizes(Snap()) && done <= |src| && ok == (done == |src|)
      ensures WrittenView(old(Snap()), Snap(), root, sz, dstva, src, done)
      ensures !ok ==> || ByteAt(old(Snap()), root, sz, dstva + done) == None
                      || Starved(Snap(), root, Quot(dstva + done, pg))
                      || ReadOnly(Snap(), root, Quot(dstva + done, pg))
    {
      hide InvBut, Lookup, InRange, ValidPte, Ppn, UserOk, Keeps, BelowMax, SameView, WrittenView, ByteAt, FreeOk, Quot,
        Rest, Readable,
        Path, Digit, Up, EntryOk, SameMaps, Writable, Spliced;
      ghost var m0 := Snap();
      FaultStarts(m0);
      WrittenNothing(m0, root, sz, dstva, src);
      done := 0;
      while done < |src|
        invariant done <= |src| && Inv(Snap()) && IsRoot(Snap(), root) && Sizes(Snap()) && pg > 0
        invariant WrittenView(m0, Snap(), root, sz, dstva, src, done)
      {
        ghost var m := Snap();
        var va := dstva + done;
        var vpn, off := Quot(va, pg), Rest(va, pg);
        if vpn >= top {
          OutOfRange(m0, m, root, sz, dstva, src, done);
          return false, done;
        }
        BelowTop(vpn, top, fan);
        var pa := UserPage(root, sz, vpn);
        ghost var m1 := Snap();
        WrittenSame(m0, m, m1, root, sz, dstva, src, done);
        KnowSizes(m1, |m1.page|, 0);
        if pa == -1 {
          if !Starved(Snap(), root, vpn) {
            UnwritableByte(m0, m, root, sz, dstva, src, done);
          }
          return false, done;
        }
        var t, fine := Walk(root, vpn, false);
        PathIsNat(m1, root, vpn);
        MappedHasTable(m1, root, vpn, t);
        LookupAt(m1, root, vpn, t);
        if !Writable(page[t].ptes[Digit(vpn, fan)]) {
          return false, done;
        }
        var n := Min(pg - off, |src| - done);
        UserPageOwned(m1, root, vpn);
        page := page[pa := Bytes(Spliced(page[pa].data, off, src[done..done + n]))];
        WrittenMore(m0, m1, Snap(), root, sz, dstva, src, done, n);
        done := done + n;
      }
      return true, done;
    }
  }

  /** The user's memory with the first `k` bytes of `src` written at `dstva`; all other memory as it was. */
  ghost predicate WrittenView(m: Mem, m': Mem, root: nat, sz: nat, dstva: nat, src: seq<byte>, k: nat) {
    && Sizes(m) && Sizes(m') && m'.pg == m.pg && m'.fan == m.fan && k <= |src|
    && (forall va: nat :: ByteAt(m', root, sz, va) == if dstva <= va < dstva + k then Some(src[va - dstva])
       else ByteAt(m, root, sz, va))
    && SameHands(m, m')
    && (forall r: nat, z: nat, va: nat :: IsRoot(m, r) && r != root ==> ByteAt(m', r, z, va) == ByteAt(m, r, z, va))
  }

  /** No page in use changed hands and none leaked. */
  ghost predicate SameHands(m: Mem, m': Mem) {
    && |m'.owner| == |m.owner|
    && (forall n: nat :: n < |m.owner| && !m.owner[n].Free? ==> m'.owner[n] == m.owner[n])
    && (forall n: nat :: n < |m.owner| && m'.owner[n].Loose? ==> m.owner[n].Loose?)
  }

  lemma WrittenNothing(m: Mem, root: nat, sz: nat, dstva: nat, src: seq<byte>)
    requires Sizes(m)
    ensures WrittenView(m, m, root, sz, dstva, src, 0)
  {
    hide ByteAt;
  }

  lemma WrittenSame(m0: Mem, m: Mem, m': Mem, root: nat, sz: nat, dstva: nat, src: seq<byte>, k: nat)
    requires WrittenView(m0, m, root, sz, dstva, src, k) && SameView(m, m', root, sz) && Keeps(m, m')
    ensures WrittenView(m0, m', root, sz, dstva, src, k)
  {
    hide ByteAt;
  }

  lemma OutOfRange(m0: Mem, m: Mem, root: nat, sz: nat, dstva: nat, src: seq<byte>, k: nat)
    requires WrittenView(m0, m, root, sz, dstva, src, k) && Quot(dstva + k, m.pg) >= m.top
    ensures ByteAt(m0, root, sz, dstva + k) == None
  {
    hide Lookup, InRange, ValidPte, Ppn, UserOk, Quot, Rest;
    assert ByteAt(m, root, sz, dstva + k) == None;
  }

  lemma UnwritableByte(m0: Mem, m: Mem, root: nat, sz: nat, dstva: nat, src: seq<byte>, k: nat)
    requires WrittenView(m0, m, root, sz, dstva, src, k) && !Readable(m, root, sz, Quot(dstva + k, m.pg))
    ensures ByteAt(m0, root, sz, dstva + k) == None
  {
    hide Lookup, InRange, ValidPte, Ppn, UserOk, Quot, Rest;
    assert ByteAt(m, root, sz, dstva + k) == None;
  }

  lemma MappedHasTable(m: Mem, root: nat, v: nat, t: int)
    requires m.fan > 0 && UserPte(Lookup(m, root, v)) && t == Path(m, root, v, 1) >= -1
    ensures t >= 0
  {
    PteFacts();
    hide Path, UserOk, ValidPte;
    if t == -1 {
      NoTableNoLookup(m, root, v);
    }
  }

  /** Writing into a data page changes no table. */
  lemma DataWrite(m: Mem, x: nat, data: seq<byte>)
    requires Inv(m) && x < |m.page| && x < |m.owner| && m.owner[x].Node? && m.owner[x].d == 0 && |data| == m.pg
    ensures Sizes(m) && var m' := m.(page := m.page[x := Bytes(data)]); Inv(m') && SameMaps(m, m')
  {
    var y := |m.page|;
    KnowSizes(m, y, 0);
    hide InvBut, Up, Digit, FreeOk, ValidPte, Ppn, Leafy, UserOk, InRange;
    var m' := m.(page := m.page[x := Bytes(data)]);
    forall n: nat | n < |m.page| ensures PageOk(m', n) && (m'.owner[n].Free? ==> n in m'.free) {
      KnowPage(m, y, 0, n);
    }
    forall t: nat, i: nat | t < |m.page| && i < m.fan ensures EntryOk(m', t, i) {
      KnowEntry(m, y, 0, t, i);
    }
    FreeKept(m, m');
    Assembled(m', y, 0);
    forall r: nat, v: nat | IsRoot(m, r) && InRange(v, m.fan)
      ensures IsRoot(m', r) && Lookup(m', r, v) == Lookup(m, r, v) {
      DataWriteLookup(m, m', x, data, r, v);
    }
  }

  lemma DataWriteLookup(m: Mem, m': Mem, x: nat, data: seq<byte>, r: nat, v: nat)
    requires Inv(m) && x < |m.page| && x < |m.owner| && m.owner[x].Node? && m.owner[x].d == 0 && IsRoot(m, r)
             && m.fan > 0 && InRange(v, m.fan)
    requires m' == m.(page := m.page[x := Bytes(data)])
    ensures Lookup(m', r, v) == Lookup(m, r, v)
  {
    hide InvBut, Up, Digit, ValidPte, Ppn, InRange;
    KnowSizes(m, |m.page|, 0);
    forall t: nat | t < |m.page| && m.owner[t].Node? && m.owner[t].d >= 1 ensures IsTable(m', t) {
      KnowPage(m, |m.page|, 0, t);
    }
    assert SameUpper(m, m');
    SameUpperPath(m, m', r, v, 1);
    PathOwner(m, r, v, 1);
  }

  lemma WrittenMore(m0: Mem, m: Mem, m': Mem, root: nat, sz: nat, dstva: nat, src: seq<byte>, k: nat, n: nat)
    requires Inv(m) && Sizes(m) && IsRoot(m, root) && WrittenView(m0, m, root, sz, dstva, src, k) && k + n <= |src|
    requires Spans(m.top, m.fan) && Quot(dstva + k, m.pg) < m.top && UserPte(Lookup(m, root, Quot(dstva + k, m.pg)))
             && Rest(dstva + k, m.pg) + n <= m.pg
    requires var x := Ppn(Lookup(m, root, Quot(dstva + k, m.pg)));
             && x < |m.page| && m.page[x].Bytes? && |m.page[x].data| == m.pg
             && m' == m.(page := m.page[x := Bytes(Spliced(m.page[x].data, Rest(dstva + k, m.pg), src[k..k + n]))])
    ensures Inv(m') && Sizes(m') && IsRoot(m', root) && WrittenView(m0, m', root, sz, dstva, src, k + n)
  {
    hide InvBut, Lookup, InRange, ValidPte, Ppn, UserOk, Quot, Rest, ByteAt, Spliced;
    var v := Quot(dstva + k, m.pg);
    var x := Ppn(Lookup(m, root, v));
    BelowTop(v, m.top, m.fan);
    UserPageOwned(m, root, v);
    DataWrite(m, x, Spliced(m.page[x].data, Rest(dstva + k, m.pg), src[k..k + n]));
    forall va: nat
      ensures ByteAt(m', root, sz, va) == if dstva <= va < dstva + (k + n) then Some(src[va - dstva])
              else ByteAt(m0, root, sz, va)
    {
      assert ByteAt(m, root, sz, va) == if dstva <= va < dstva + k then Some(src[va - dstva])
             else ByteAt(m0, root, sz, va);
      SpliceByte(m, m', root, v, dstva + k, src[k..k + n], root, sz, va);
    }
    forall r: nat, z: nat, va: nat | IsRoot(m0, r) && r != root ensures ByteAt(m', r, z, va) == ByteAt(m0, r, z, va) {
      SpliceByte(m, m', root, v, dstva + k, src[k..k + n], r, z, va);
    }
  }

  /** Writing inside one user page changes those bytes of that process and no others. */
  lemma SpliceByte(m: Mem, m': Mem, root: nat, v: nat, at: nat, bytes: seq<byte>, r: nat, z: nat, va: nat)
    requires Inv(m) && Sizes(m) && IsRoot(m, root) && v == Quot(at, m.pg) && Rest(at, m.pg) + |bytes| <= m.pg
    requires Spans(m.top, m.fan) && v < m.top && UserPte(Lookup(m, root, v)) && IsRoot(m, r) && SameMaps(m, m')
    requires var x := Ppn(Lookup(m, root, v));
             && x < |m.page| && m.page[x].Bytes? && |m.page[x].data| == m.pg
             && m' == m.(page := m.page[x := Bytes(Spliced(m.page[x].data, Rest(at, m.pg), bytes))])
    ensures ByteAt(m', r, z, va) ==
            if r == root && at <= va < at + |bytes| then Some(bytes[va - at]) else ByteAt(m, r, z, va)
  {
    hide InvBut, Lookup, InRange, ValidPte, Ppn, UserOk, Quot, Rest, Spliced;
    var u := Quot(va, m.pg);
    SameBlock(m.pg, at, |bytes|, va);
    BelowTop(v, m.top, m.fan);
    UserPageOwned(m, root, v);
    if u < m.top {
      BelowTop(u, m.top, m.fan);
      assert Lookup(m', r, u) == Lookup(m, r, u);
      if UserPte(Lookup(m, r, u)) {
        UserPageOwned(m, r, u);
      }
    }
  }

  // ---------------------------------------------------------------- the user's memory

  /** Byte `va` of the user's memory: a byte of a mapped user page; 0 in a page below the size that is not
      mapped yet; otherwise not the user's. */
  function ByteAt(m: Mem, root: nat, sz: nat, va: nat): Option<byte>
    requires Sizes(m)
  {
    var v := Quot(va, m.pg);
    var pte := Lookup(m, root, v);
    if v >= m.top then None
    else if ValidPte(pte) then
      if UserOk(pte) && Ppn(pte) < |m.page| && m.page[Ppn(pte)].Bytes? && |m.page[Ppn(pte)].data| == m.pg
      then Some(m.page[Ppn(pte)].data[Rest(va, m.pg)]) else None
    else if Base(v, m.pg) < sz then Some(0) else None
  }

  /** Page `vpn` can be read, now or after a fault. */
  predicate Readable(m: Mem, root: nat, sz: nat, vpn: nat) {
    && m.fan > 0 && vpn < m.top
    && if ValidPte(Lookup(m, root, vpn)) then UserOk(Lookup(m, root, vpn)) else Base(vpn, m.pg) < sz
  }

  /** No byte of the user's memory at `root`, and none of any other page table's (whatever that process's
      size), changed. */
  ghost predicate SameView(m: Mem, m': Mem, root: nat, sz: nat) {
    && Sizes(m) && Sizes(m') && m'.pg == m.pg && m'.fan == m.fan
    && (forall va: nat :: ByteAt(m', root, sz, va) == ByteAt(m, root, sz, va))
    && (forall r: nat, z: nat, va: nat :: IsRoot(m, r) && r != root ==> ByteAt(m', r, z, va) == ByteAt(m, r, z, va))
  }

  lemma RootKept(m: Mem, m': Mem, root: nat)
    requires SameMaps(m, m') && IsRoot(m, root)
    ensures IsRoot(m', root)
  {
    hide Lookup;
    assert InRange(0, m.fan);
  }

  /** A user page is a data page of that table. */
  lemma UserPageOwned(m: Mem, root: nat, v: nat)
    requires Inv(m) && IsRoot(m, root) && m.fan > 0 && InRange(v, m.fan) && UserPte(Lookup(m, root, v))
    ensures var x := Ppn(Lookup(m, root, v));
            Sizes(m) && x < |m.page| && OwnedBy(m, x, root, v) && m.page[x].Bytes? && |m.page[x].data| == m.pg
  {
    PathIsNat(m, root, v);
    hide InvBut, Up, Digit, Ppn, ValidPte, InRange, Path, UserOk, Leafy;
    PteFacts();
    var t := Path(m, root, v, 1);
    if t == -1 {
      NoTableNoLookup(m, root, v);
    } else {
      LookupAt(m, root, v, t);
      var x := Ppn(Lookup(m, root, v));
      MappedIsOwned(m, root, v, t);
      KnowPage(m, |m.page|, 0, x);
    }
  }

  lemma SameByte(m: Mem, m': Mem, r: nat, z: nat, va: nat)
    requires Inv(m) && Keeps(m, m') && IsRoot(m, r)
    requires Spans(m.top, m.fan)
    requires Quot(va, m.pg) < m.top ==> Lookup(m', r, Quot(va, m.pg)) == Lookup(m, r, Quot(va, m.pg))
    ensures ByteAt(m', r, z, va) == ByteAt(m, r, z, va)
  {
    hide InvBut, Lookup, InRange, ValidPte, Ppn, UserOk, Quot, Rest;
    var v := Quot(va, m.pg);
    if v < m.top && UserPte(Lookup(m, r, v)) {
      BelowTop(v, m.top, m.fan);
      UserPageOwned(m, r, v);
    }
  }

  lemma SameMapsByte(m: Mem, m': Mem, r: nat, z: nat, va: nat)
    requires Inv(m) && Keeps(m, m') && SameMaps(m, m') && IsRoot(m, r) && Spans(m.top, m.fan)
    ensures ByteAt(m', r, z, va) == ByteAt(m, r, z, va)
  {
    hide InvBut, Lookup, InRange, ByteAt, Spans;
    if Quot(va, m.pg) < m.top {
      BelowTop(Quot(va, m.pg), m.top, m.fan);
    }
    SameByte(m, m', r, z, va);
  }

  lemma SameMapsView(m: Mem, m': Mem, root: nat, sz: nat)
    requires Inv(m) && Keeps(m, m') && SameMaps(m, m') && IsRoot(m, root) && Spans(m.top, m.fan)
    ensures SameView(m, m', root, sz)
  {
    hide InvBut, SameMaps, ByteAt, Spans;
    forall va: nat ensures ByteAt(m', root, sz, va) == ByteAt(m, root, sz, va) {
      SameMapsByte(m, m', root, sz, va);
    }
    forall r: nat, z: nat, va: nat | IsRoot(m, r) && r != root ensures ByteAt(m', r, z, va) == ByteAt(m, r, z, va) {
      SameMapsByte(m, m', r, z, va);
    }
  }

  lemma OtherByte(m: Mem, m': Mem, root: nat, sz: nat, vpn: nat, pa: nat, r: nat, z: nat, va: nat)
    requires Inv(m) && Keeps(m, m') && Faulted(m, m', root, sz, vpn, pa) && IsRoot(m, r) && Spans(m.top, m.fan)
    requires r != root || Quot(va, m.pg) != vpn
    ensures ByteAt(m', r, z, va) == ByteAt(m, r, z, va)
  {
    hide InvBut, Lookup, InRange, ByteAt, Spans, ZeroPage, Quot;
    if Quot(va, m.pg) < m.top {
      BelowTop(Quot(va, m.pg), m.top, m.fan);
    }
    SameByte(m, m', r, z, va);
  }

  /** A page fault is invisible: the new page reads as the zeros it read as before. */
  lemma FaultView(m: Mem, m': Mem, root: nat, sz: nat, vpn: nat, pa: nat)
    requires Inv(m) && Keeps(m, m') && Faulted(m, m', root, sz, vpn, pa) && IsRoot(m, root) && Spans(m.top, m.fan)
    ensures SameView(m, m', root, sz) && IsRoot(m', root)
    ensures UserPte(Lookup(m', root, vpn)) && pa == Ppn(Lookup(m', root, vpn)) && vpn < m'.top
  {
    assert IsRoot(m', root) && UserPte(Lookup(m', root, vpn)) && pa == Ppn(Lookup(m', root, vpn));
    hide InvBut, ByteAt, Spans, Faulted, Quot;
    forall va: nat ensures ByteAt(m', root, sz, va) == ByteAt(m, root, sz, va) {
      if Quot(va, m.pg) == vpn {
        FaultByte(m, m', root, sz, vpn, pa, va);
      } else {
        OtherByte(m, m', root, sz, vpn, pa, root, sz, va);
      }
    }
    forall r: nat, z: nat, va: nat | IsRoot(m, r) && r != root ensures ByteAt(m', r, z, va) == ByteAt(m, r, z, va) {
      OtherByte(m, m', root, sz, vpn, pa, r, z, va);
    }
  }

  lemma FaultByte(m: Mem, m': Mem, root: nat, sz: nat, vpn: nat, pa: nat, va: nat)
    requires Keeps(m, m') && Faulted(m, m', root, sz, vpn, pa) && Quot(va, m.pg) == vpn
    ensures ByteAt(m', root, sz, va) == ByteAt(m, root, sz, va)
  {
    PteFacts();
    hide Lookup, InRange, ValidPte, Ppn, UserOk, Writable, Quot, Rest, OthersSame;
  }

  lemma ViewTrans(m: Mem, m1: Mem, m2: Mem, root: nat, sz: nat)
    requires SameView(m, m1, root, sz) && SameView(m1, m2, root, sz) && Keeps(m, m1)
    ensures SameView(m, m2, root, sz)
  {
    hide ByteAt;
  }

  lemma UnreadableByte(m0: Mem, m: Mem, root: nat, sz: nat, va: nat)
    requires SameView(m0, m, root, sz) && !Readable(m, root, sz, Quot(va, m.pg))
    ensures ByteAt(m0, root, sz, va) == None
  {
    hide Lookup, InRange, ValidPte, Ppn, UserOk, Quot, Rest;
    assert ByteAt(m, root, sz, va) == ByteAt(m0, root, sz, va);
  }

  lemma ReadBytes(m0: Mem, m: Mem, root: nat, sz: nat, va: nat, n: nat)
    requires Inv(m) && IsRoot(m, root) && SameView(m0, m, root, sz) && Rest(va, m.pg) + n <= m.pg && m.fan > 0
    requires Spans(m.top, m.fan) && Quot(va, m.pg) < m.top && UserPte(Lookup(m, root, Quot(va, m.pg)))
    ensures var x := Ppn(Lookup(m, root, Quot(va, m.pg)));
            && x < |m.page| && m.page[x].Bytes? && |m.page[x].data| == m.pg
            && forall o: nat :: va <= o < va + n ==>
                 ByteAt(m0, root, sz, o) == Some(m.page[x].data[Rest(va, m.pg)..Rest(va, m.pg) + n][o - va])
  {
    hide InvBut, Lookup, InRange, ValidPte, Ppn, UserOk, Quot, Rest;
    var v := Quot(va, m.pg);
    BelowTop(v, m.top, m.fan);
    UserPageOwned(m, root, v);
    var x := Ppn(Lookup(m, root, v));
    forall o: nat | va <= o < va + n
      ensures ByteAt(m0, root, sz, o) == Some(m.page[x].data[Rest(va, m.pg)..Rest(va, m.pg) + n][o - va])
    {
      SameBlock(m.pg, va, n, o);
      assert ByteAt(m, root, sz, o) == ByteAt(m0, root, sz, o);
    }
  }

  predicate UserPte(pte: nat) {
    ValidPte(pte) && UserOk(pte)
  }

  /** A process is never larger than the address space. */
  ghost predicate BelowMax(top: nat, pg: nat, sz: nat) {
    pg > 0 && forall v: nat :: Base(v, pg) < sz ==> v < top
  }

  function Base(v: nat, pg: nat): nat {
    v * pg
  }

  lemma BelowSize(top: nat, pg: nat, sz: nat, v: nat)
    requires BelowMax(top, pg, sz) && v * pg < sz
    ensures v < top
  {
    assert Base(v, pg) < sz;
  }

  predicate ZeroPage(m: Mem, pte: nat) {
    && UserPte(pte) && Writable(pte) && Ppn(pte) < |m.page| && m.page[Ppn(pte)] == Filled(m.pg, 0)
  }

  /** The page table of `root` has gained page `vpn`, all zero, and nothing else changed. */
  ghost predicate Faulted(m0: Mem, m: Mem, root: nat, sz: nat, vpn: nat, pa: nat) {
    && m0.fan > 0 && m.fan == m0.fan && vpn < m0.top && InRange(vpn, m0.fan) && Base(vpn, m0.pg) < sz
    && Lookup(m0, root, vpn) == 0 && ZeroPage(m, Lookup(m, root, vpn)) && Ppn(Lookup(m, root, vpn)) == pa
    && OthersSame(m0, m, root, vpn, vpn + 1)
  }

  lemma FaultStarts(m: Mem)
    requires Inv(m)
    ensures Sizes(m) && FreeOk(m) && Keeps(m, m) && SameMaps(m, m)
    ensures !ValidPte(0) && W + U + R < 1024 && Leafy(W + U + R)
  {
    hide InvBut, Lookup, InRange;
    KnowSizes(m, |m.page|, 0);
  }

  lemma FaultFilled(m0: Mem, m1: Mem, root: nat)
    requires Inv(m0) && Sizes(m0) && FreeOk(m0) && m0.free != [] && IsRoot(m0, root)
    requires var m := Kalloced(m0); m1 == m.(page := m.page[m0.free[0] := Filled(m0.pg, 0)])
    ensures var c := m0.free[0];
            && Inv(m1) && SameMaps(m0, m1) && KeepsX(m0, m1, c) && IsRoot(m1, root) && m0.owner[c].Free?
               && m1.owner[c].Loose?
            && m1.page[c] == Filled(m0.pg, 0) && CanMap(m1, c, W + U + R, true) && SameTables(m0, m1)
  {
    var c, m := m0.free[0], Kalloced(m0);
    KallocKeeps(m0);
    hide InvBut, Lookup, InRange, UserOk, WithV, Filled;
    LooseWrite(m, c, Filled(m0.pg, 0));
    TablesMaps(m0, m);
    TablesMaps(m, m1);
    MapsTrans(m0, m, m1);
    KnowSizes(m1, |m1.page|, 0);
  }

  lemma KeepsFromX(m: Mem, m1: Mem, m2: Mem, c: nat)
    requires KeepsX(m, m1, c) && KeepsX(m1, m2, c) && c < |m.owner| && m.owner[c].Free? && !m2.owner[c].Loose?
    ensures Keeps(m, m2)
  {
  }

  lemma FaultFails(m0: Mem, m1: Mem, m2: Mem, root: nat, vpn: nat, c: nat, res: MapResult, done: nat)
    requires Inv(m2) && KeepsX(m0, m1, c) && SameMaps(m0, m1) && c < |m0.owner| && m0.owner[c].Free? && c < |m1.owner|
             && m1.owner[c].Loose?
    requires MapsAfter(m1, m2, root, vpn, done, c, W + U + R) && PagesAfter(m1, m2, root, vpn, done, c, true)
             && res != Done
    requires m0.fan > 0 && IsRoot(m0, root) && InRange(vpn, m0.fan) && Lookup(m0, root, vpn) == 0 && m1.fan > 0
    requires done == 0 && (res.NoMemory? || res.Remap?)
    requires (res.NoMemory? ==> m2.free == []) && (res.Remap? ==> ValidPte(Lookup(m1, root, vpn)))
    ensures Sizes(m2) && m2.lo <= c < m2.hi && c < |m2.owner|
    ensures IsRoot(m2, root) && InRange(vpn, m2.fan) && res.NoMemory?
    ensures var m' := Kfreed(m2, c);
            Inv(m') && Keeps(m0, m') && SameMaps(m0, m') && SameTables(m2, m') && |m'.free| == 1
            && Lookup(m', root, vpn) == Lookup(m0, root, vpn)
  {
    PteFacts();
    hide InvBut, Lookup, InRange, ValidPte, WithV, MakePte, Filled;
    KnowSizes(m2, |m2.page|, 0);
    MappedKeepsX(m1, m2, root, vpn, 0, c);
    assert PageAfter(m1, m2, root, vpn, 0, c, true, c);
    assert SameMaps(m1, m2);
    KfreeKeeps(m2, c, |m2.page|, 0);
    var m' := Kfreed(m2, c);
    TablesMaps(m2, m');
    MapsTrans(m0, m1, m2);
    MapsTrans(m0, m2, m');
    assert KeepsX(m0, m', c);
    KeepsFromX(m0, m', m', c);
  }

  lemma FaultWorks(m0: Mem, m1: Mem, m2: Mem, root: nat, sz: nat, vpn: nat, c: nat)
    requires KeepsX(m0, m1, c) && SameMaps(m0, m1) && c < |m0.owner| && m0.owner[c].Free? && c < |m1.owner|
             && m1.owner[c].Loose?
    requires c < |m1.page| && m1.page[c] == Filled(m0.pg, 0)
    requires MapsAfter(m1, m2, root, vpn, 1, c, W + U + R) && PagesAfter(m1, m2, root, vpn, 1, c, true)
    requires m0.fan > 0 && IsRoot(m0, root) && vpn < m0.top && InRange(vpn, m0.fan) && Lookup(m0, root, vpn) == 0
             && vpn * m0.pg < sz
    ensures Keeps(m0, m2) && Faulted(m0, m2, root, sz, vpn, c)
  {
    hide Lookup, InRange, ValidPte, WithV, MakePte, Filled, UserOk, Writable, Leafy, Ppn, Flags, Keeps, OthersSame;
    MappedKeepsX(m1, m2, root, vpn, 1, c);
    KeepsFromX(m0, m1, m2, c);
    FaultFlags(c);
    assert IsRoot(m1, root) && Lookup(m1, root, vpn) == 0;
    MappedOthers(m1, m2, root, vpn, c, W + U + R);
    OthersFrom(m0, m1, m2, root, vpn);
    assert ZeroPage(m2, Lookup(m2, root, vpn));
  }

  lemma FaultFlags(c: nat)
    ensures W + U + R < 1024
    ensures var pte := MakePte(c, WithV(W + U + R)); UserPte(pte) && Writable(pte) && Ppn(pte) == c
  {
    PteParts(c, WithV(W + U + R));
    assert W + U + R == 22;
    assert ValidPte(23) && UserOk(22) && Writable(22);
  }

  lemma OthersFrom(m0: Mem, m1: Mem, m2: Mem, root: nat, vpn: nat)
    requires SameMaps(m0, m1) && OthersSame(m1, m2, root, vpn, vpn + 1)
    ensures OthersSame(m0, m2, root, vpn, vpn + 1)
  {
    hide Lookup, InRange;
  }

  /** Page `v` of `child` is a private copy of page `v` of `parent` as it was. */
  predicate CopiedPage(m0: Mem, m: Mem, parent: nat, child: nat, v: nat) {
    && m0.fan > 0 && m.fan > 0
    && var p, q := Lookup(m0, parent, v), Lookup(m, child, v);
       if !ValidPte(p) then q == 0
       else
         && ValidPte(q) && Flags(q) == Flags(p) && OwnedBy(m, Ppn(q), child, v)
         && Ppn(p) < |m0.page| && Ppn(q) < |m.page| && m.page[Ppn(q)] == m0.page[Ppn(p)]
  }

  /** Outside pages `lo..hi` of `child`, all flat maps are as they were. */
  ghost predicate OthersSame(m0: Mem, m: Mem, child: nat, lo: nat, hi: nat) {
    && m0.fan > 0 && m.fan == m0.fan
    && forall r: nat, v: nat :: IsRoot(m0, r) && InRange(v, m0.fan) ==>
         IsRoot(m, r) && (!(r == child && lo <= v < hi) ==> Lookup(m, r, v) == Lookup(m0, r, v))
  }

  /** uvmcopy's loop after `k` pages, with page `c` in hand. */
  ghost predicate CopyState(m0: Mem, m: Mem, parent: nat, child: nat, k: nat, c: nat) {
    && KeepsX(m0, m, c) && OthersSame(m0, m, child, 0, k)
    && (forall v: nat :: v < k ==> CopiedPage(m0, m, parent, child, v))
  }

  /** As Keeps, page `c` aside. */
  ghost predicate KeepsX(m: Mem, m': Mem, c: nat) {
    && Sizes(m) && Sizes(m') && m'.fan == m.fan && m'.pg == m.pg && m'.lo == m.lo && m'.hi == m.hi && m'.top == m.top
       && |m'.page| == |m.page|
    && (forall n: nat :: n < |m.page| && n != c && !m.owner[n].Free? ==> m'.owner[n] == m.owner[n])
    && (forall n: nat :: n < |m.page| && n != c && Content(m.owner[n]) ==> m'.page[n] == m.page[n])
    && (forall n: nat :: n < |m.page| && n != c && m'.owner[n].Loose? ==> m.owner[n].Loose?)
  }

  lemma CopyStarts(m: Mem, parent: nat, child: nat)
    requires Inv(m) && Sizes(m)
    ensures CopyState(m, m, parent, child, 0, |m.page|)
  {
    hide InvBut, Lookup, InRange;
  }

  lemma CopyDone(m0: Mem, m: Mem, parent: nat, child: nat, n: nat)
    requires CopyState(m0, m, parent, child, n, |m0.page|)
    ensures Keeps(m0, m) && OthersSame(m0, m, child, 0, n)
            && forall v: nat :: v < n ==> CopiedPage(m0, m, parent, child, v)
  {
  }

  /** A page that was free at the start may be used freely; the copies made so far stay. */
  lemma CopyMoves(m0: Mem, m: Mem, m': Mem, parent: nat, child: nat, k: nat, c: nat)
    requires CopyState(m0, m, parent, child, k, c) && KeepsX(m, m', c) && OthersSame(m, m', child, k, k + 1)
    requires c < |m0.owner| && m0.owner[c].Free? && c < |m.owner| && !m.owner[c].Node? && IsRoot(m0, child)
    requires forall v: nat :: v < k ==> InRange(v, m0.fan)
    ensures KeepsX(m0, m', c) && OthersSame(m0, m', child, 0, k + 1)
    ensures forall v: nat :: v < k ==> CopiedPage(m0, m', parent, child, v)
  {
    hide Lookup, InRange, ValidPte, Ppn, Flags;
    forall v: nat | v < k ensures CopiedPage(m0, m', parent, child, v) {
      assert CopiedPage(m0, m, parent, child, v);
      assert Lookup(m', child, v) == Lookup(m, child, v);
    }
  }

  lemma CopyMovesSame(m0: Mem, m: Mem, m': Mem, parent: nat, child: nat, k: nat, b: nat, c: nat)
    requires CopyState(m0, m, parent, child, k, b) && (b == c || b == |m0.page|) && KeepsX(m, m', c) && SameMaps(m, m')
             && IsRoot(m0, child)
    requires c < |m0.owner| && m0.owner[c].Free? && c < |m.owner| && !m.owner[c].Node?
    requires forall v: nat :: v < k ==> InRange(v, m0.fan)
    ensures CopyState(m0, m', parent, child, k, c)
  {
    hide Lookup, InRange, ValidPte, Ppn, Flags;
    forall v: nat | v < k ensures CopiedPage(m0, m', parent, child, v) {
      assert CopiedPage(m0, m, parent, child, v);
      assert Lookup(m', child, v) == Lookup(m, child, v);
    }
  }

  lemma CopySkip(m0: Mem, m: Mem, parent: nat, child: nat, k: nat)
    requires CopyState(m0, m, parent, child, k, |m0.page|) && IsRoot(m0, parent) && IsRoot(m0, child) && parent != child
             && m.fan > 0
    requires m0.fan > 0 && InRange(k, m0.fan) && !ValidPte(Lookup(m, parent, k)) && Lookup(m0, child, k) == 0
    ensures CopyState(m0, m, parent, child, k + 1, |m0.page|)
  {
    hide Lookup, InRange, ValidPte, Ppn, Flags, Keeps;
    assert Lookup(m, parent, k) == Lookup(m0, parent, k) && Lookup(m, child, k) == Lookup(m0, child, k);
    assert CopiedPage(m0, m, parent, child, k);
  }

  /** An entry is its page number and its flags. */
  lemma PteSplit(pte: nat)
    ensures pte == MakePte(Ppn(pte), Flags(pte))
    ensures ValidPte(Flags(pte)) == ValidPte(pte) && Leafy(Flags(pte)) == Leafy(pte)
            && (ValidPte(pte) ==> WithV(Flags(pte)) == Flags(pte))
  {
    PteParts(Ppn(pte), Flags(pte));
  }

  /** The parent's page that uvmcopy is about to copy. */
  lemma CopyFinds(m0: Mem, m: Mem, parent: nat, child: nat, k: nat, t: nat)
    requires Inv(m0) && Inv(m) && CopyState(m0, m, parent, child, k, |m0.page|) && IsRoot(m0, parent)
             && IsRoot(m, parent) && parent != child
    requires m0.fan > 0 && m.fan > 0 && InRange(k, m0.fan) && InRange(k, m.fan) && OwnedOrNone(m0, parent, k)
             && t == Path(m, parent, k, 1)
    requires ValidPte(Lookup(m, parent, k))
    ensures Lookup(m0, parent, k) == Lookup(m, parent, k) && Sizes(m) && FreeOk(m)
    ensures var p := Lookup(m, parent, k);
            && Ppn(p) < |m.page| == |m0.page| && m.owner[Ppn(p)].Node? && m.page[Ppn(p)] == m0.page[Ppn(p)]
            && m.page[Ppn(p)].Bytes? && |m.page[Ppn(p)].data| == m.pg && Leafy(Flags(p)) && ValidPte(Flags(p))
  {
    KnowSizes(m, |m.page|, 0);
    var p := Lookup(m, parent, k);
    assert Lookup(m0, parent, k) == p;
    PteSplit(p);
    LookupAt(m, parent, k, t);
    var x := Ppn(p);
    assert m0.owner[x].Node?;
    hide ValidPte, Leafy, Flags, Ppn, Lookup, Path, InRange, Digit, Up, InvBut, OthersSame, CopiedPage;
    assert m.owner[x] == m0.owner[x];
    MappedIsOwned(m, parent, k, t);
    KnowPage(m, |m.page|, 0, x);
  }

  /** Writing bytes into a page nobody refers to. */
  lemma LooseWrite(m: Mem, c: nat, data: Page)
    requires Inv(m) && c < |m.page| && c < |m.owner| && m.owner[c].Loose?
    ensures Sizes(m) && var m' := m.(page := m.page[c := data]); Inv(m') && SameTables(m, m')
  {
    var x := |m.page|;
    KnowSizes(m, x, 0);
    hide InvBut, Up, Digit, FreeOk, ValidPte, Ppn, Leafy, UserOk;
    var m' := m.(page := m.page[c := data]);
    forall n: nat | n < |m.page| ensures PageOk(m', n) && (m'.owner[n].Free? ==> n in m'.free) {
      KnowPage(m, x, 0, n);
      if m.owner[n].Node? && m.owner[n].d < 3 {
        KnowPage(m, x, 0, m.owner[n].up);
      }
    }
    forall t: nat, i: nat | t < |m.page| && i < m.fan ensures EntryOk(m', t, i) {
      KnowEntry(m, x, 0, t, i);
    }
    FreeKept(m, m');
    Assembled(m', x, 0);
  }

  lemma TablesMaps(m: Mem, m': Mem)
    requires Inv(m) && SameTables(m, m')
    ensures SameMaps(m, m')
  {
    hide InvBut, Lookup, InRange;
    KnowSizes(m, |m.page|, 0);
    forall r: nat, v: nat | IsRoot(m, r) && InRange(v, m.fan)
      ensures IsRoot(m', r) && Lookup(m', r, v) == Lookup(m, r, v) {
      SameLookup(m, m', r, v);
    }
  }

  lemma CopyFilled(m0: Mem, m: Mem, m1: Mem, parent: nat, child: nat, k: nat, pa: nat, flags: nat)
    requires Inv(m) && Sizes(m) && FreeOk(m) && m.free != [] && CopyState(m0, m, parent, child, k, |m0.page|)
    requires IsRoot(m0, child) && IsRoot(m, child) && IsRoot(m, parent) && forall v: nat :: v < k ==> InRange(v, m0.fan)
    requires pa < |m.page| == |m0.page| && m.owner[pa].Node? && m.page[pa].Bytes? && |m.page[pa].data| == m.pg
             && flags < 1024
    requires var m' := Kalloced(m); m1 == m'.(page := m'.page[m.free[0] := m'.page[pa]])
    ensures var c := m.free[0];
            && Inv(m1) && CopyState(m0, m1, parent, child, k, c) && IsRoot(m1, child) && IsRoot(m1, parent) && Sizes(m1)
            && c < |m0.owner| && m0.owner[c].Free? && m1.owner[c].Loose? && m1.page[c] == m.page[pa]
               && CanMap(m1, c, flags, true)
  {
    var c, m' := m.free[0], Kalloced(m);
    KallocKeeps(m);
    hide InvBut, Lookup, InRange, UserOk, WithV, CopiedPage, OthersSame, Filled;
    assert pa != c && m'.page[pa] == m.page[pa];
    LooseWrite(m', c, m.page[pa]);
    TablesMaps(m, m');
    TablesMaps(m', m1);
    MapsTrans(m, m', m1);
    assert m0.owner[c].Free?;
    assert KeepsX(m, m1, c);
    hide KeepsX, Keeps, SameTables;
    CopyMovesSame(m0, m, m1, parent, child, k, |m0.page|, c);
    KnowSizes(m1, |m1.page|, 0);
  }

  lemma MappedKeepsX(m1: Mem, m2: Mem, child: nat, k: nat, done: nat, c: nat)
    requires PagesAfter(m1, m2, child, k, done, c, true) && done <= 1
    ensures KeepsX(m1, m2, c)
    ensures c < |m1.page| ==> (done == 1 ==> OwnedBy(m2, c, child, k))
    ensures c < |m1.page| ==> (Content(m1.owner[c]) ==> m2.page[c] == m1.page[c])
  {
    forall n: nat | n < |m1.page| && n != c
      ensures !m1.owner[n].Free? ==> m2.owner[n] == m1.owner[n]
      ensures Content(m1.owner[n]) ==> m2.page[n] == m1.page[n]
      ensures m2.owner[n].Loose? ==> m1.owner[n].Loose?
    {
      assert PageAfter(m1, m2, child, k, done, c, true, n);
    }
    if c < |m1.page| {
      assert PageAfter(m1, m2, child, k, done, c, true, c);
    }
  }

  lemma CopyUnmapped(m0: Mem, m1: Mem, parent: nat, child: nat, k: nat, c: nat)
    requires CopyState(m0, m1, parent, child, k, c) && IsRoot(m0, child) && m0.fan > 0 && InRange(k, m0.fan)
    requires Lookup(m0, child, k) == 0
    ensures m1.fan > 0 && !ValidPte(Lookup(m1, child, k))
  {
    PteFacts();
    hide Lookup, InRange;
  }

  lemma CopyMapped(m0: Mem, m1: Mem, m2: Mem, parent: nat, child: nat, k: nat, c: nat, pa: nat, flags: nat,
                   res: MapResult, done: nat)
    requires Inv(m1) && Sizes(m1) && Inv(m2) && CopyState(m0, m1, parent, child, k, c) && IsRoot(m0, child)
             && IsRoot(m0, parent) && parent != child
    requires forall v: nat :: v <= k ==> InRange(v, m0.fan)
    requires m0.fan > 0 && m1.fan == m0.fan && Lookup(m0, child, k) == 0 && c < |m0.owner| && m0.owner[c].Free?
             && c < |m1.owner| && m1.owner[c].Loose?
    requires flags < 1024 && ValidPte(Lookup(m0, parent, k)) && flags == Flags(Lookup(m0, parent, k))
             && pa == Ppn(Lookup(m0, parent, k)) < |m0.page|
    requires m1.page[c] == m0.page[pa]
    requires done <= 1 && MapsAfter(m1, m2, child, k, done, c, flags) && PagesAfter(m1, m2, child, k, done, c, true)
    requires res == Done <==> done == 1
    ensures Sizes(m2) && IsRoot(m2, child) && IsRoot(m2, parent)
    ensures if res == Done then CopyState(m0, m2, parent, child, k + 1, |m0.page|)
            else CopyState(m0, m2, parent, child, k, c) && c < |m2.owner| && m2.owner[c].Loose?
  {
    PteFacts();
    KnowSizes(m2, |m2.page|, 0);
    hide InvBut, Lookup, InRange, ValidPte, Ppn, Flags, MakePte, WithV, Leafy, PageOk, Keeps, CopiedPage, PagesAfter;
    assert IsRoot(m1, child) && IsRoot(m1, parent) && Lookup(m1, child, k) == 0;
    hide CopyState, OthersSame;
    if res == Done {
      CopyMappedDone(m0, m1, m2, parent, child, k, c, pa, flags);
    } else {
      hide MapsAfter;
      CopyMappedNot(m0, m1, m2, parent, child, k, c, flags);
    }
  }

  lemma CopyMappedNot(m0: Mem, m1: Mem, m2: Mem, parent: nat, child: nat, k: nat, c: nat, flags: nat)
    requires CopyState(m0, m1, parent, child, k, c) && IsRoot(m0, child)
             && forall v: nat :: v <= k ==> InRange(v, m0.fan)
    requires c < |m0.owner| && m0.owner[c].Free? && c < |m1.owner| && m1.owner[c].Loose?
    requires MapsAfter(m1, m2, child, k, 0, c, flags) && PagesAfter(m1, m2, child, k, 0, c, true)
    ensures CopyState(m0, m2, parent, child, k, c) && c < |m2.owner| && m2.owner[c].Loose?
  {
    MappedKeepsX(m1, m2, child, k, 0, c);
    assert PageAfter(m1, m2, child, k, 0, c, true, c);
    hide Lookup, InRange, MakePte, WithV, CopyState;
    assert SameMaps(m1, m2);
    hide SameMaps, KeepsX;
    CopyMovesSame(m0, m1, m2, parent, child, k, c, c);
  }

  lemma CopyMappedDone(m0: Mem, m1: Mem, m2: Mem, parent: nat, child: nat, k: nat, c: nat, pa: nat, flags: nat)
    requires CopyState(m0, m1, parent, child, k, c) && IsRoot(m0, child) && IsRoot(m1, child)
             && forall v: nat :: v <= k ==> InRange(v, m0.fan)
    requires m0.fan > 0 && c < |m0.owner| && m0.owner[c].Free? && c < |m1.owner| && m1.owner[c].Loose? && c < |m1.page|
    requires flags < 1024 && ValidPte(Lookup(m0, parent, k)) && flags == Flags(Lookup(m0, parent, k))
             && pa == Ppn(Lookup(m0, parent, k)) < |m0.page|
    requires m1.page[c] == m0.page[pa] && m1.fan == m0.fan
    requires MapsAfter(m1, m2, child, k, 1, c, flags) && PagesAfter(m1, m2, child, k, 1, c, true)
    ensures CopyState(m0, m2, parent, child, k + 1, |m0.page|)
  {
    MappedKeepsX(m1, m2, child, k, 1, c);
    MappedOthers(m1, m2, child, k, c, flags);
    assert |m2.page| == |m1.page|;
    hide Lookup, InRange, MakePte, WithV, CopyState, ValidPte, Leafy, Ppn, Flags, MapsAfter, PagesAfter, KeepsX,
      OthersSame, Keeps, CopiedPage;
    CopiedHere(m0, m2, parent, child, k, c, pa, flags);
    CopyMoves(m0, m1, m2, parent, child, k, c);
    CopyStateFrom(m0, m2, parent, child, k, c);
  }

  lemma MappedOthers(m1: Mem, m2: Mem, child: nat, k: nat, c: nat, flags: nat)
    requires MapsAfter(m1, m2, child, k, 1, c, flags) && IsRoot(m1, child) && m1.fan > 0 && InRange(k, m1.fan)
    ensures OthersSame(m1, m2, child, k, k + 1) && m2.fan > 0 && Lookup(m2, child, k) == MakePte(c, WithV(flags))
  {
    hide Lookup, InRange, MakePte, WithV;
  }

  lemma CopiedHere(m0: Mem, m: Mem, parent: nat, child: nat, k: nat, c: nat, pa: nat, flags: nat)
    requires m0.fan > 0 && m.fan > 0 && flags < 1024 && ValidPte(Lookup(m0, parent, k))
             && flags == Flags(Lookup(m0, parent, k))
    requires pa == Ppn(Lookup(m0, parent, k)) < |m0.page| && Lookup(m, child, k) == MakePte(c, WithV(flags))
    requires OwnedBy(m, c, child, k) && c < |m.page| && m.page[c] == m0.page[pa]
    ensures CopiedPage(m0, m, parent, child, k)
  {
    hide Lookup, MakePte, WithV, ValidPte, Leafy, UserOk, Writable, Ppn, Flags;
    PteSplit(Lookup(m0, parent, k));
    PteParts(c, WithV(flags));
  }

  lemma CopyStateFrom(m0: Mem, m: Mem, parent: nat, child: nat, k: nat, c: nat)
    requires KeepsX(m0, m, c) && c < |m0.owner| && m0.owner[c].Free? && !m.owner[c].Loose?
    requires OthersSame(m0, m, child, 0, k + 1) && CopiedPage(m0, m, parent, child, k)
    requires forall v: nat :: v < k ==> CopiedPage(m0, m, parent, child, v)
    ensures CopyState(m0, m, parent, child, k + 1, |m0.page|)
  {
    hide CopiedPage, OthersSame;
  }

  /** The page in hand is back on the free list. */
  lemma CopySettles(m0: Mem, m: Mem, parent: nat, child: nat, k: nat, c: nat)
    requires CopyState(m0, m, parent, child, k, c) && c < |m0.owner| && m0.owner[c].Free? && !m.owner[c].Loose?
    ensures CopyState(m0, m, parent, child, k, |m0.page|)
  {
    hide CopiedPage, OthersSame;
  }

  lemma CopyFreed(m0: Mem, m: Mem, parent: nat, child: nat, k: nat, c: nat)
    requires Inv(m) && CopyState(m0, m, parent, child, k, c) && IsRoot(m0, child) && IsRoot(m, child)
             && IsRoot(m, parent)
    requires forall v: nat :: v < k ==> InRange(v, m0.fan)
    requires c < |m0.owner| && m0.owner[c].Free? && c < |m.owner| && m.owner[c].Loose?
    ensures Sizes(m) && m.lo <= c < m.hi
    ensures var m' := Kfreed(m, c);
            && Inv(m') && Sizes(m') && CopyState(m0, m', parent, child, k, |m0.page|)
            && IsRoot(m', child) && IsRoot(m', parent)
  {
    KnowSizes(m, |m.page|, 0);
    KfreeKeeps(m, c, |m.page|, 0);
    hide InvBut, Lookup, InRange, CopyState, Filled;
    var m' := Kfreed(m, c);
    TablesMaps(m, m');
    assert KeepsX(m, m', c);
    CopyMovesSame(m0, m, m', parent, child, k, c, c);
    CopySettles(m0, m', parent, child, k, c);
  }

  /** What uvmcopy has mapped so far may be unmapped and freed. */
  lemma CopyUndo(m0: Mem, m: Mem, parent: nat, child: nat, k: nat)
    requires CopyState(m0, m, parent, child, k, |m0.page|)
    ensures forall v: nat :: 0 <= v < 0 + k ==> OwnedOrNone(m, child, v)
  {
    PteFacts();
    hide Lookup, InRange, ValidPte, Ppn, Flags, Keeps, OthersSame;
    forall v: nat | v < k ensures OwnedOrNone(m, child, v) {
      assert CopiedPage(m0, m, parent, child, v);
    }
  }

  lemma CopyFailed(m0: Mem, m: Mem, m': Mem, parent: nat, child: nat, k: nat, n: nat)
    requires Inv(m0) && CopyState(m0, m, parent, child, k, |m0.page|) && k <= n && IsRoot(m0, child) && m0.fan > 0
    requires forall v: nat :: v < n ==> InRange(v, m0.fan) && Lookup(m0, child, v) == 0
    requires MapsCleared(m, m', child, 0, k) && PagesCleared(m, m', child, 0, k, true)
    ensures Keeps(m0, m') && OthersSame(m0, m', child, 0, n) && forall v: nat :: v < n ==> Lookup(m', child, v) == 0
  {
    PteFacts();
    hide InvBut, Lookup, InRange, ValidPte, Ppn, Flags, CopiedPage;
    forall x: nat | x < |m0.page|
      ensures !m0.owner[x].Free? ==> m'.owner[x] == m0.owner[x] && (Content(m0.owner[x]) ==> m'.page[x] == m0.page[x])
      ensures m'.owner[x].Loose? ==> m0.owner[x].Loose?
    {
      assert PageCleared(m, m', child, 0, k, true, x);
      if Within(m0.owner[x], child, 0, k) {
        OwnedIsMapped(m0, child, m0.owner[x].key, x);
      }
    }
    forall v: nat | v < n ensures Lookup(m', child, v) == 0 {
      assert InRange(v, m0.fan) && IsRoot(m, child);
    }
  }

  lemma AllClear(m0: Mem, m1: Mem, root: nat, n: nat)
    requires Inv(m0) && Inv(m1) && IsRoot(m0, root) && IsRoot(m1, root) && MapsCleared(m0, m1, root, 0, n)
    requires forall v: nat :: InRange(v, m0.fan) && v >= n ==> Lookup(m0, root, v) == 0
    ensures Sizes(m1) && NoLeaves(m1, root) && root < |m1.page| == |m1.owner| && m1.owner[root].root == root
  {
    hide InvBut, InRange, Lookup, ValidPte, Leafy, Ppn;
    KnowSizes(m1, |m1.page|, 0);
    KnowPage(m1, |m1.page|, 0, root);
    forall t: nat, i: nat | t < |m1.page| && i < m1.fan && m1.owner[t].Node? && m1.owner[t].root == root
      && m1.owner[t].d == 1 && IsTable(m1, t)
      ensures Pte(m1, t, i) == 0
    {
      var v := EntryVpn(m1, t, i);
      LookupHere(m1, root, v, t);
    }
  }

  /** The page number whose entry is entry `i` of the depth-1 table `t`. */
  lemma EntryVpn(m: Mem, t: nat, i: nat) returns (v: nat)
    requires Inv(m) && t < |m.page| && m.fan > 0 && i < m.fan && t < |m.owner| && m.owner[t].Node? && m.owner[t].d == 1
    ensures Up(v, m.fan) == m.owner[t].key && Digit(v, m.fan) == i && InRange(v, m.fan)
  {
    KnowPage(m, |m.page|, 0, t);
    var o := m.owner[t];
    KnowPage(m, |m.page|, 0, o.up);
    hide InvBut;
    v := o.key * m.fan + i;
    DivModUnique(v, m.fan, o.key, i);
    assert Up(Up(o.key, m.fan), m.fan) == 0;
  }

  lemma AllGone(m0: Mem, m1: Mem, m2: Mem, root: nat, n: nat)
    requires PagesCleared(m0, m1, root, 0, n, true) && TablesGone(m1, m2, root, 3, |m1.page|) && Inv(m2)
    requires root < |m2.owner| && m2.owner[root].Free? && Inv(m0)
    ensures |m2.owner| == |m0.owner|
    ensures forall x: nat :: x < |m2.owner| ==>
              m2.owner[x] == if m0.owner[x].Node? && m0.owner[x].root == root then Free else m0.owner[x]
  {
    hide InvBut;
    forall x: nat | x < |m2.owner|
      ensures m2.owner[x] == if m0.owner[x].Node? && m0.owner[x].root == root then Free else m0.owner[x]
    {
      assert PageCleared(m0, m1, root, 0, n, true, x) && PageGone(m1, m2, root, 3, x);
      NoRootNoNodes(m2, root, x);
    }
  }

  /** No page is mapped any more. */
  predicate NoLeaves(m: Mem, root: nat) {
    && m.fan > 0 && |m.owner| == |m.page|
    && forall n: nat, i: nat ::
         n < |m.page| && i < m.fan && m.owner[n].Node? && m.owner[n].root == root && m.owner[n].d == 1 ==>
         (IsTable(m, n) ==> Pte(m, n, i) == 0)
  }

  predicate PageGone(m: Mem, m': Mem, root: nat, d: nat, n: nat)
    requires Sizes(m) && Sizes(m') && |m'.page| == |m.page| && n < |m.page|
  {
    || (m'.owner[n] == m.owner[n] && m'.page[n] == m.page[n])
    || (m'.owner[n].Free? && m.owner[n].Node? && m.owner[n].root == root && 1 <= m.owner[n].d <= d)
  }

  /** Page `x` aside, the only change is that tables of `root` up to depth `d` became free. */
  ghost predicate TablesGone(m: Mem, m': Mem, root: nat, d: nat, x: nat) {
    && Sizes(m) && Sizes(m') && m'.fan == m.fan && m'.pg == m.pg && m'.lo == m.lo && m'.hi == m.hi && m'.top == m.top
       && |m'.page| == |m.page|
    && (forall n: nat :: n < |m.page| && n != x ==> PageGone(m, m', root, d, n))
  }

  lemma FreeStarts(m: Mem, t: nat, root: nat, d: nat)
    requires Inv(m) && t < |m.page| == |m.owner| && m.owner[t].Node? && m.owner[t].d == d >= 1
    ensures Sizes(m) && d <= 3 && IsTable(m, t) && TablesGone(m, m, root, d - 1, t)
  {
    KnowPage(m, |m.page|, 0, t);
    hide InvBut, PageOk, Up, Digit;
    var e := d - 1;
    forall n: nat | n < |m.page| ensures PageGone(m, m, root, e, n) {}
  }

  /** What freewalk finds at entry `i`: nothing, or a table. */
  lemma FreeEntry(m: Mem, t: nat, i: nat, root: nat, d: nat)
    requires Inv(m) && Sizes(m) && IsTable(m, t) && i < m.fan && m.owner[t].Node? && m.owner[t].d == d >= 1
             && m.owner[t].root == root
    requires NoLeaves(m, root)
    ensures var pte := Pte(m, t, i);
            if ValidPte(pte) then
              && d > 1 && !Leafy(pte) && Ppn(pte) < |m.page|
              && var o := m.owner[Ppn(pte)];
                 o.Node? && o.root == root && o.d == d - 1 && ParentPage(m, Ppn(pte)) == t
                 && ParentEntry(m, Ppn(pte)) == i
            else pte == 0
  {
    PteFacts();
    KnowPage(m, |m.page|, 0, t);
    KnowEntry(m, |m.page|, 0, t, i);
    hide InvBut, Up, Digit, ValidPte, Leafy, Ppn;
  }

  lemma ChildGone(m: Mem, m1: Mem, t: nat, i: nat, child: nat, root: nat, d: nat)
    requires Sizes(m) && t < |m.page| && m.owner[t].Node? && m.owner[t].d == d > 1 && IsTable(m, t)
    requires TablesGone(m, m1, root, d - 1, |m.page|)
    ensures m1.owner[t] == m.owner[t] && m1.page[t] == m.page[t] && IsTable(m1, t)
  {
    assert PageGone(m, m1, root, d - 1, t);
  }

  lemma EntryGone(m0: Mem, m: Mem, m1: Mem, m2: Mem, t: nat, i: nat, root: nat, d: nat)
    requires d > 1 && TablesGone(m0, m, root, d - 1, t) && TablesGone(m, m1, root, d - 1, |m.page|) && t < |m.page|
    requires InvBut(m1, t, i) && NoLeaves(m, root) && IsTable(m, t) && i < m.fan && IsTable(m1, t)
             && m1.owner[t] == m.owner[t] && m1.page[t] == m.page[t]
    requires m.owner[t].Node? && m.owner[t].d == d && ValidPte(Pte(m, t, i)) && Ppn(Pte(m, t, i)) < |m.page|
             && m1.owner[Ppn(Pte(m, t, i))].Free?
    requires m2 == m1.(page := m1.page[t := Table(m1.page[t].ptes[i := 0])])
    ensures Inv(m2) && Sizes(m2) && IsTable(m2, t) && NoLeaves(m2, root) && TablesGone(m0, m2, root, d - 1, t)
  {
    ClearStaleKeeps(m1, t, i);
    assert m2 == SetPte(m1, t, i, 0);
    hide InvBut, ValidPte, Ppn;
    KnowSizes(m2, |m2.page|, 0);
    var e := d - 1;
    forall n: nat | n < |m.page| && n != t ensures PageGone(m0, m2, root, e, n) {
      assert PageGone(m0, m, root, e, n) && PageGone(m, m1, root, e, n);
    }
    forall n: nat, j: nat | n < |m2.page| && j < m2.fan && m2.owner[n].Node? && m2.owner[n].root == root
      && m2.owner[n].d == 1 && IsTable(m2, n)
      ensures Pte(m2, n, j) == 0
    {
      assert PageGone(m, m1, root, d - 1, n);
      assert m.page[n] == m2.page[n] && Pte(m, n, j) == 0;
    }
  }

  lemma FreeTable(m0: Mem, m: Mem, t: nat, root: nat, d: nat)
    requires Inv(m) && Sizes(m) && d >= 1 && TablesGone(m0, m, root, d - 1, t) && t < |m.page| && IsTable(m, t)
    requires m.owner[t] == m0.owner[t] && m.owner[t].Node? && m.owner[t].d == d && m.owner[t].root == root
    requires forall j: nat :: j < m.fan ==> m.page[t].ptes[j] == 0
    ensures m.lo <= t < m.hi && TablesGone(m0, Kfreed(m, t), root, d, |m0.page|)
    ensures InvBut(Kfreed(m, t), ParentPage(m0, t), ParentEntry(m0, t))
  {
    assert Emptied(m, t);
    FreeTableKeeps(m, t);
    hide InvBut, Filled, Emptied;
    var m' := Kfreed(m, t);
    forall n: nat | n < |m.page| ensures PageGone(m0, m', root, d, n) {
      if n != t {
        assert PageGone(m0, m, root, d - 1, n);
      }
    }
  }

  predicate OwnedOrNone(m: Mem, root: nat, v: nat) {
    m.fan > 0 && (ValidPte(Lookup(m, root, v)) ==>
        Ppn(Lookup(m, root, v)) < |m.owner| && m.owner[Ppn(Lookup(m, root, v))].Node?)
  }

  /** The flat maps with `k` pages unmapped from `vpn` on, and otherwise as before. */
  ghost predicate MapsCleared(m: Mem, m': Mem, root: nat, vpn: nat, k: nat) {
    && m.fan > 0 && m'.fan == m.fan
    && (forall r: nat, v: nat :: IsRoot(m, r) && InRange(v, m.fan) ==>
          IsRoot(m', r) && Lookup(m', r, v) == if r == root && vpn <= v < vpn + k then 0 else Lookup(m, r, v))
  }

  predicate Within(o: Owner, root: nat, vpn: nat, k: nat) {
    o.Node? && o.d == 0 && o.root == root && vpn <= o.key < vpn + k
  }

  predicate PageCleared(m: Mem, m': Mem, root: nat, vpn: nat, k: nat, dofree: bool, x: nat)
    requires Sizes(m) && Sizes(m') && |m'.page| == |m.page| && x < |m.page|
  {
    if Within(m.owner[x], root, vpn, k) then m'.owner[x] == (if dofree then Free else Loose)
      && (!dofree ==> m'.page[x] == m.page[x])
    else m'.owner[x] == m.owner[x] && (Content(m.owner[x]) ==> m'.page[x] == m.page[x])
  }

  /** Exactly the pages the table owned in that range were given up. */
  ghost predicate PagesCleared(m: Mem, m': Mem, root: nat, vpn: nat, k: nat, dofree: bool) {
    && Sizes(m) && Sizes(m') && m'.fan == m.fan && m'.pg == m.pg && m'.lo == m.lo && m'.hi == m.hi && m'.top == m.top
       && |m'.page| == |m.page|
    && (forall x: nat :: x < |m.page| ==> PageCleared(m, m', root, vpn, k, dofree, x))
  }

  lemma ClearStarts(m: Mem, root: nat, vpn: nat, dofree: bool)
    requires Inv(m) && IsRoot(m, root)
    ensures Sizes(m) && MapsCleared(m, m, root, vpn, 0) && PagesCleared(m, m, root, vpn, 0, dofree)
  {
    hide InvBut, Lookup, InRange;
    KnowSizes(m, |m.page|, 0);
    forall x: nat | x < |m.page| ensures PageCleared(m, m, root, vpn, 0, dofree, x) {}
  }

  lemma NoTableNoLookup(m: Mem, root: nat, v: nat)
    requires m.fan > 0 && Path(m, root, v, 1) == -1
    ensures Lookup(m, root, v) == 0
  {
  }

  lemma InvalidIsZero(m: Mem, root: nat, v: nat, t: nat)
    requires Sizes(m) && IsTable(m, t) && m.owner[t].Node? && m.owner[t].d == 1 && EntryOk(m, t, Digit(v, m.fan))
    requires Lookup(m, root, v) == Pte(m, t, Digit(v, m.fan)) && !ValidPte(Pte(m, t, Digit(v, m.fan)))
    ensures Lookup(m, root, v) == 0
  {
  }

  /** A data page belongs where the flat map shows it. */
  lemma OwnedIsMapped(m: Mem, root: nat, v: nat, x: nat)
    requires Inv(m) && x < |m.owner| && OwnedBy(m, x, root, v) && InRange(v, m.fan)
    ensures m.fan > 0 && ValidPte(Lookup(m, root, v)) && Ppn(Lookup(m, root, v)) == x
  {
    KnowPage(m, |m.page|, 0, x);
    hide InvBut, Up, Digit, Ppn, ValidPte, InRange;
    var o := m.owner[x];
    KnowPage(m, |m.page|, 0, o.up);
    assert Key(v, 1, m.fan) == Up(v, m.fan);
    OwnerPath(m, o.up, v);
  }

  /** And the other way round. */
  lemma MappedIsOwned(m: Mem, root: nat, v: nat, t: nat)
    requires Inv(m) && IsRoot(m, root) && m.fan > 0 && InRange(v, m.fan) && t == Path(m, root, v, 1)
    requires ValidPte(Lookup(m, root, v)) && Ppn(Lookup(m, root, v)) < |m.owner|
             && m.owner[Ppn(Lookup(m, root, v))].Node?
    ensures OwnedBy(m, Ppn(Lookup(m, root, v)), root, v) && m.owner[Ppn(Lookup(m, root, v))].up == t
  {
    LookupAt(m, root, v, t);
    var x := Ppn(Lookup(m, root, v));
    KnowSizes(m, |m.page|, 0);
    KnowPage(m, |m.page|, 0, x);
    hide InvBut, Up, Digit, Ppn, ValidPte, InRange, Path, Lookup;
    SameKey(m.owner[x].key, v, m.fan);
  }

  lemma ClearSkip(m0: Mem, m: Mem, root: nat, vpn: nat, k: nat, dofree: bool)
    requires Inv(m0) && Inv(m) && IsRoot(m, root) && m.fan > 0 && InRange(vpn + k, m.fan)
             && Lookup(m, root, vpn + k) == 0
    requires MapsCleared(m0, m, root, vpn, k) && PagesCleared(m0, m, root, vpn, k, dofree)
    ensures MapsCleared(m0, m, root, vpn, k + 1) && PagesCleared(m0, m, root, vpn, k + 1, dofree)
  {
    PteFacts();
    hide InvBut, Lookup, InRange, ValidPte, Ppn;
    var k' := k + 1;
    forall x: nat | x < |m0.page| ensures PageCleared(m0, m, root, vpn, k', dofree, x) {
      assert PageCleared(m0, m, root, vpn, k, dofree, x);
      if OwnedBy(m, x, root, vpn + k) {
        OwnedIsMapped(m, root, vpn + k, x);
      }
    }
  }

  /** The page found at `vpn + k` is where it says, and kfree accepts it. */
  lemma ClearFinds(m0: Mem, m: Mem, root: nat, vpn: nat, k: nat, dofree: bool, t: nat)
    requires Inv(m) && IsRoot(m, root) && m.fan > 0 && InRange(vpn + k, m.fan) && t == Path(m, root, vpn + k, 1)
    requires Inv(m0) && IsRoot(m0, root) && MapsCleared(m0, m, root, vpn, k)
             && PagesCleared(m0, m, root, vpn, k, dofree)
    requires ValidPte(Lookup(m, root, vpn + k)) && (dofree ==> OwnedOrNone(m0, root, vpn + k))
    ensures Sizes(m) && IsTable(m, t) && Lookup(m, root, vpn + k) == Pte(m, t, Digit(vpn + k, m.fan))
    ensures Unmappable(m, t, vpn + k) && Ppn(Lookup(m, root, vpn + k)) < |m.owner| && Ppn(Lookup(m, root, vpn + k)) != t
    ensures m.owner[Ppn(Lookup(m, root, vpn + k))].Node? ==> OwnedBy(m, Ppn(Lookup(m, root, vpn + k)), root, vpn + k)
    ensures dofree ==> m.owner[Ppn(Lookup(m, root, vpn + k))].Node? && m.lo <= Ppn(Lookup(m, root, vpn + k)) < m.hi
  {
    var v := vpn + k;
    LookupAt(m, root, v, t);
    KnowSizes(m, |m.page|, 0);
    var x := Ppn(Lookup(m, root, v));
    KnowPage(m, |m.page|, 0, x);
    if m.owner[x].Node? {
      MappedIsOwned(m, root, v, t);
    }
    hide InvBut, Up, Digit, Ppn, ValidPte, InRange, Path, Lookup, Leafy, UserOk;
    if dofree {
      assert Lookup(m0, root, v) == Lookup(m, root, v);
      assert PageCleared(m0, m, root, vpn, k, dofree, x);
    }
  }

  /** uvmunmap's one page: the entry cleared and the page given up. */
  ghost function ClearedPage(m: Mem, t: nat, v: nat, dofree: bool): Mem
    requires Unmappable(m, t, v) && Ppn(Pte(m, t, Digit(v, m.fan))) < |m.page|
  {
    if dofree then Kfreed(UnmappedPage(m, t, v), Ppn(Pte(m, t, Digit(v, m.fan)))) else UnmappedPage(m, t, v)
  }

  lemma ClearedIs(m: Mem, m': Mem, t: nat, v: nat, dofree: bool)
    requires Unmappable(m, t, v) && Ppn(Pte(m, t, Digit(v, m.fan))) < |m.page| && Ppn(Pte(m, t, Digit(v, m.fan))) != t
    requires dofree ==> m.owner[Ppn(Pte(m, t, Digit(v, m.fan)))].Node?
    requires var x := Ppn(Pte(m, t, Digit(v, m.fan)));
             var m1 := if dofree then Kfreed(m, x)
               else m.(owner := if m.owner[x].Node? then m.owner[x := Loose] else m.owner);
             m' == m1.(page := m1.page[t := Table(m.page[t].ptes[Digit(v, m.fan) := 0])])
    ensures m' == ClearedPage(m, t, v, dofree)
  {
    hide Digit, Ppn, ValidPte, EntryOk, Filled;
    var x := Ppn(Pte(m, t, Digit(v, m.fan)));
    var cleared := Table(m.page[t].ptes[Digit(v, m.fan) := 0]);
    assert m.page[x := Filled(m.pg, 1)][t := cleared] == m.page[t := cleared][x := Filled(m.pg, 1)];
  }

  lemma ClearedInv(m: Mem, t: nat, v: nat, dofree: bool)
    requires Inv(m) && Unmappable(m, t, v) && Ppn(Pte(m, t, Digit(v, m.fan))) < |m.page|
             && Ppn(Pte(m, t, Digit(v, m.fan))) != t
    requires dofree ==> m.owner[Ppn(Pte(m, t, Digit(v, m.fan)))].Node?
    ensures Inv(UnmappedPage(m, t, v)) && Inv(ClearedPage(m, t, v, dofree)) && SameUpper(m, UnmappedPage(m, t, v))
    ensures dofree ==> SameTables(UnmappedPage(m, t, v), ClearedPage(m, t, v, dofree))
  {
    UnmapKeeps(m, t, v);
    var x := Ppn(Pte(m, t, Digit(v, m.fan)));
    hide InvBut, Up, Digit, Ppn, ValidPte, SetPte, Leafy, UserOk;
    var m1 := UnmappedPage(m, t, v);
    KnowSizes(m, |m.page|, 0);
    forall s: nat | s < |m.page| && m.owner[s].Node? && m.owner[s].d >= 1
      ensures m1.owner[s] == m.owner[s] && IsTable(m1, s) {
      KnowPage(m, |m.page|, 0, s);
    }
    if dofree {
      KfreeKeeps(m1, x, |m1.page|, 0);
    }
  }

  lemma ClearedLookup(m: Mem, t: nat, v: nat, dofree: bool, r: nat, u: nat)
    requires Inv(m) && Unmappable(m, t, v) && Ppn(Pte(m, t, Digit(v, m.fan))) < |m.page|
             && Ppn(Pte(m, t, Digit(v, m.fan))) != t
    requires (dofree ==> m.owner[Ppn(Pte(m, t, Digit(v, m.fan)))].Node?) && m.owner[t].key == Up(v, m.fan)
    requires InRange(v, m.fan) && InRange(u, m.fan) && IsRoot(m, r)
    ensures var m' := ClearedPage(m, t, v, dofree);
            IsRoot(m', r) && m'.fan == m.fan && Lookup(m', r, u) ==
              if r == m.owner[t].root && u == v then 0 else Lookup(m, r, u)
  {
    ClearedInv(m, t, v, dofree);
    hide InvBut, Up, Digit, Ppn, ValidPte, SetPte, Lookup, InRange, EntryOk, SameUpper, SameTables;
    var m1 := UnmappedPage(m, t, v);
    SetLookup(m, m1, t, v, 0, r, u);
    if dofree {
      SameLookup(m1, ClearedPage(m, t, v, dofree), r, u);
    }
  }

  lemma ClearOne(m0: Mem, m: Mem, m': Mem, root: nat, vpn: nat, k: nat, dofree: bool, t: nat)
    requires Inv(m) && IsRoot(m, root) && m.fan > 0 && InRange(vpn + k, m.fan) && Unmappable(m, t, vpn + k)
    requires m.owner[t].key == Up(vpn + k, m.fan) && m.owner[t].root == root
             && Ppn(Pte(m, t, Digit(vpn + k, m.fan))) < |m.page|
    requires var x := Ppn(Pte(m, t, Digit(vpn + k, m.fan)));
             && x != t && (dofree ==> m.owner[x].Node?) && (m.owner[x].Node? ==> OwnedBy(m, x, root, vpn + k))
             && var m1 := if dofree then Kfreed(m, x)
                else m.(owner := if m.owner[x].Node? then m.owner[x := Loose] else m.owner);
                m' == m1.(page := m1.page[t := Table(m.page[t].ptes[Digit(vpn + k, m.fan) := 0])])
    requires MapsCleared(m0, m, root, vpn, k) && PagesCleared(m0, m, root, vpn, k, dofree) && IsRoot(m0, root)
    ensures Inv(m') && IsRoot(m', root) && Sizes(m')
    ensures MapsCleared(m0, m', root, vpn, k + 1) && PagesCleared(m0, m', root, vpn, k + 1, dofree)
  {
    var v := vpn + k;
    ClearedIs(m, m', t, v, dofree);
    ClearedInv(m, t, v, dofree);
    ClearOneMaps(m0, m, root, vpn, k, dofree, t);
    ClearOnePages(m0, m, m', root, vpn, k, dofree, t);
    hide *;
    KnowSizes(m', |m'.page|, 0);
  }

  lemma ClearOneMaps(m0: Mem, m: Mem, root: nat, vpn: nat, k: nat, dofree: bool, t: nat)
    requires Inv(m) && IsRoot(m, root) && m.fan > 0 && InRange(vpn + k, m.fan) && Unmappable(m, t, vpn + k)
    requires m.owner[t].key == Up(vpn + k, m.fan) && m.owner[t].root == root
             && Ppn(Pte(m, t, Digit(vpn + k, m.fan))) < |m.page|
    requires var x := Ppn(Pte(m, t, Digit(vpn + k, m.fan))); x != t && (dofree ==> m.owner[x].Node?)
    requires MapsCleared(m0, m, root, vpn, k) && IsRoot(m0, root)
    ensures var m' := ClearedPage(m, t, vpn + k, dofree); IsRoot(m', root) && MapsCleared(m0, m', root, vpn, k + 1)
  {
    hide InvBut, Up, Digit, Ppn, ValidPte, Lookup, InRange, EntryOk, ClearedPage;
    var v, m' := vpn + k, ClearedPage(m, t, vpn + k, dofree);
    ClearedLookup(m, t, v, dofree, root, v);
    forall r: nat, u: nat | IsRoot(m0, r) && InRange(u, m0.fan)
      ensures IsRoot(m', r) && Lookup(m', r, u) == if r == root && vpn <= u < vpn + (k + 1) then 0 else Lookup(m0, r, u)
    {
      ClearedLookup(m, t, v, dofree, r, u);
    }
  }

  lemma ClearOnePages(m0: Mem, m: Mem, m': Mem, root: nat, vpn: nat, k: nat, dofree: bool, t: nat)
    requires Inv(m) && Sizes(m) && m.fan > 0 && InRange(vpn + k, m.fan) && IsTable(m, t) && m.owner[t].Node?
             && m.owner[t].d == 1
    requires m.owner[t].key == Up(vpn + k, m.fan) && m.owner[t].root == root
             && Ppn(Pte(m, t, Digit(vpn + k, m.fan))) < |m.page|
    requires var x := Ppn(Pte(m, t, Digit(vpn + k, m.fan)));
             && x != t && (dofree ==> m.owner[x].Node?) && (m.owner[x].Node? ==> OwnedBy(m, x, root, vpn + k))
             && var m1 := if dofree then Kfreed(m, x)
                else m.(owner := if m.owner[x].Node? then m.owner[x := Loose] else m.owner);
                m' == m1.(page := m1.page[t := Table(m.page[t].ptes[Digit(vpn + k, m.fan) := 0])])
    requires PagesCleared(m0, m, root, vpn, k, dofree)
    ensures PagesCleared(m0, m', root, vpn, k + 1, dofree)
  {
    hide InvBut, Up, Digit, Ppn, ValidPte, Lookup, InRange, EntryOk, Filled, PageOk;
    var v, k' := vpn + k, k + 1;
    forall y: nat | y < |m0.page| ensures PageCleared(m0, m', root, vpn, k', dofree, y) {
      assert PageCleared(m0, m, root, vpn, k, dofree, y);
      if OwnedBy(m, y, root, v) {
        OwnedIsMapped(m, root, v, y);
        LookupHere(m, root, v, t);
      }
    }
  }

  lemma LookupHere(m: Mem, root: nat, v: nat, t: nat)
    requires Inv(m) && m.fan > 0 && InRange(v, m.fan) && IsTable(m, t) && t < |m.owner| && m.owner[t].Node?
    requires m.owner[t].d == 1 && m.owner[t].root == root && m.owner[t].key == Up(v, m.fan)
    ensures Lookup(m, root, v) == Pte(m, t, Digit(v, m.fan))
  {
    assert Key(v, 1, m.fan) == Up(v, m.fan);
    OwnerPath(m, t, v);
  }

  /** The last three are panics: of mappages, of mappages for a page mapped already, and of walk from MAXVA on. */
  datatype MapResult = Done | NoMemory | ZeroSize | Remap | BeyondMax

  /** A page that may be mapped: just allocated, to be handed over, or the kernel's own, not for the user. */
  predicate CanMap(m: Mem, x: nat, perm: nat, own: bool)
    requires perm < 1024
  {
    && Sizes(m) && x < |m.page|
    && if own then m.owner[x].Loose? && m.page[x].Bytes? && |m.page[x].data| == m.pg
       else m.owner[x].Kernel? && !UserOk(WithV(perm))
  }

  /** Page `x` is mapped at `vpn` of `root` and belongs to that page table. */
  predicate OwnedBy(m: Mem, x: nat, root: nat, vpn: nat) {
    x < |m.owner| && m.owner[x].Node? && m.owner[x].root == root && m.owner[x].d == 0 && m.owner[x].key == vpn
  }

  /** The flat maps with `k` pages mapped from `vpn` on, and otherwise as before. */
  ghost predicate MapsAfter(m: Mem, m': Mem, root: nat, vpn: nat, k: nat, ppn: nat, perm: nat) {
    && perm < 1024 && m.fan > 0 && m'.fan == m.fan
    && (forall r: nat, v: nat :: IsRoot(m, r) && InRange(v, m.fan) ==>
          IsRoot(m', r) && Lookup(m', r, v) ==
            if r == root && vpn <= v < vpn + k then MakePte(ppn + (v - vpn), WithV(perm)) else Lookup(m, r, v))
  }

  /** A page other than a table: its bytes mean something to somebody. */
  predicate Content(o: Owner) {
    o.Loose? || o.Kernel? || (o.Node? && o.d == 0)
  }

  predicate PageAfter(m: Mem, m': Mem, root: nat, vpn: nat, k: nat, ppn: nat, own: bool, x: nat)
    requires Sizes(m) && Sizes(m') && |m'.page| == |m.page| && x < |m.page|
  {
    && (if own && ppn <= x < ppn + k then OwnedBy(m', x, root, vpn + (x - ppn))
       else !m.owner[x].Free? ==> m'.owner[x] == m.owner[x])
    && (Content(m.owner[x]) ==> m'.page[x] == m.page[x])
    && (m'.owner[x].Loose? ==> m.owner[x].Loose?)
  }

  /** With `own`, the pages `ppn..ppn + k` were handed over; apart from that no page in use changed hands,
      none leaked, and no page outside the tables changed its bytes. */
  ghost predicate PagesAfter(m: Mem, m': Mem, root: nat, vpn: nat, k: nat, ppn: nat, own: bool) {
    && Sizes(m) && Sizes(m') && m'.fan == m.fan && m'.pg == m.pg && m'.lo == m.lo && m'.hi == m.hi && m'.top == m.top
       && |m'.page| == |m.page|
    && (forall x: nat :: x < |m.page| ==> PageAfter(m, m', root, vpn, k, ppn, own, x))
  }

  lemma MapStarts(m: Mem, root: nat, vpn: nat, ppn: nat, perm: nat, own: bool)
    requires Inv(m) && IsRoot(m, root) && perm < 1024
    ensures Sizes(m) && MapsAfter(m, m, root, vpn, 0, ppn, perm) && PagesAfter(m, m, root, vpn, 0, ppn, own)
  {
    hide InvBut, Lookup, InRange;
    KnowSizes(m, |m.page|, 0);
    forall x: nat | x < |m.page| ensures PageAfter(m, m, root, vpn, 0, ppn, own, x) {}
  }

  lemma MapWalked(m0: Mem, m1: Mem, m2: Mem, root: nat, vpn: nat, k: nat, ppn: nat, perm: nat, own: bool)
    requires MapsAfter(m0, m1, root, vpn, k, ppn, perm) && PagesAfter(m0, m1, root, vpn, k, ppn, own)
    requires Keeps(m1, m2) && SameMaps(m1, m2)
    ensures MapsAfter(m0, m2, root, vpn, k, ppn, perm) && PagesAfter(m0, m2, root, vpn, k, ppn, own)
  {
    hide Lookup, InRange, MakePte, WithV;
    forall x: nat | x < |m0.page| ensures PageAfter(m0, m2, root, vpn, k, ppn, own, x) {
      assert PageAfter(m0, m1, root, vpn, k, ppn, own, x);
    }
  }

  lemma InTop(m: Mem, v: nat)
    requires Inv(m) && Spans(m.top, m.fan) && v < m.top
    ensures m.fan > 0 && InRange(v, m.fan)
  {
    KnowSizes(m, |m.page|, 0);
    BelowTop(v, m.top, m.fan);
  }

  lemma PathIsNat(m: Mem, root: nat, vpn: nat)
    requires Inv(m) && IsRoot(m, root) && InRange(vpn, m.fan) && m.fan > 0
    ensures Path(m, root, vpn, 1) >= -1
  {
    PathOwner(m, root, vpn, 1);
  }

  /** walk's result is the table of the entry, and the entry is the flat map's. */
  lemma LookupAt(m: Mem, root: nat, vpn: nat, t: nat)
    requires Inv(m) && IsRoot(m, root) && m.fan > 0 && InRange(vpn, m.fan) && t == Path(m, root, vpn, 1)
    ensures IsTable(m, t) && t < |m.owner| && m.owner[t].Node? && m.owner[t].root == root && m.owner[t].d == 1
            && m.owner[t].key == Up(vpn, m.fan)
    ensures Lookup(m, root, vpn) == Pte(m, t, Digit(vpn, m.fan))
    ensures Sizes(m) && EntryOk(m, t, Digit(vpn, m.fan))
  {
    PathOwner(m, root, vpn, 1);
    assert Key(vpn, 1, m.fan) == Up(vpn, m.fan);
    KnowEntry(m, |m.page|, 0, t, Digit(vpn, m.fan));
  }

  lemma MapReached(m0: Mem, m: Mem, root: nat, vpn: nat, k: nat, ppn: nat, perm: nat, own: bool, t: nat)
    requires IsTable(m, t) && t < |m.owner| && m.owner[t].Node? && m.owner[t].root == root && m.owner[t].d == 1
    requires Sizes(m) && m.owner[t].key == Up(vpn + k, m.fan) && EntryOk(m, t, Digit(vpn + k, m.fan)) && perm < 1024
             && Leafy(perm)
    requires Lookup(m, root, vpn + k) == Pte(m, t, Digit(vpn + k, m.fan)) && InRange(vpn + k, m.fan) && IsRoot(m0, root)
    requires MapsAfter(m0, m, root, vpn, k, ppn, perm) && PagesAfter(m0, m, root, vpn, k, ppn, own)
             && CanMap(m0, ppn + k, perm, own)
    ensures ppn + k < |m.owner| && Lookup(m0, root, vpn + k) == Pte(m, t, Digit(vpn + k, m.fan))
    ensures Ppn(MakePte(ppn + k, WithV(perm))) == ppn + k
    ensures !ValidPte(Pte(m, t, Digit(vpn + k, m.fan))) ==> Mappable(m, t, vpn + k, MakePte(ppn + k, WithV(perm)), own)
  {
    PteParts(ppn + k, WithV(perm));
    hide Lookup, InRange, Path, Digit, Up, MakePte, WithV, Leafy, UserOk, Ppn, ValidPte;
    assert PageAfter(m0, m, root, vpn, k, ppn, own, ppn + k);
  }

  lemma MappedIs(m: Mem, m': Mem, t: nat, vpn: nat, pte: nat, own: bool)
    requires Mappable(m, t, vpn, pte, own)
    requires m' == m.(page := m.page[t := Table(m.page[t].ptes[Digit(vpn, m.fan) := pte])],
                      owner := if own then m.owner[Ppn(pte) := Node(m.owner[t].root, 0, vpn, t)] else m.owner)
    ensures m' == MappedPage(m, t, vpn, pte, own)
  {
    hide Digit, Up, Leafy, UserOk, Ppn, ValidPte;
  }

  lemma MappedUpper(m: Mem, t: nat, vpn: nat, pte: nat, own: bool)
    requires Inv(m) && Mappable(m, t, vpn, pte, own)
    ensures SameUpper(m, MappedPage(m, t, vpn, pte, own))
  {
    hide InvBut, Digit, Up, Leafy, UserOk, Ppn, ValidPte, SetPte;
    var m' := MappedPage(m, t, vpn, pte, own);
    forall s: nat | s < |m.page| && m.owner[s].Node? && m.owner[s].d >= 1
      ensures m'.owner[s] == m.owner[s] && IsTable(m', s) {
      KnowPage(m, |m.page|, 0, s);
    }
  }

  lemma MapOne(m0: Mem, m: Mem, root: nat, vpn: nat, k: nat, ppn: nat, perm: nat, own: bool, t: nat, pte: nat)
    requires perm < 1024 && pte == MakePte(ppn + k, WithV(perm)) && Ppn(pte) == ppn + k
    requires Inv(m) && Mappable(m, t, vpn + k, pte, own) && m.owner[t].root == root && InRange(vpn + k, m.fan)
    requires IsRoot(m, root) && CanMap(m0, ppn + k, perm, own)
    requires MapsAfter(m0, m, root, vpn, k, ppn, perm) && PagesAfter(m0, m, root, vpn, k, ppn, own)
    ensures var m' := MappedPage(m, t, vpn + k, pte, own);
            && Inv(m') && IsRoot(m', root)
            && MapsAfter(m0, m', root, vpn, k + 1, ppn, perm) && PagesAfter(m0, m', root, vpn, k + 1, ppn, own)
  {
    MapKeeps(m, t, vpn + k, pte, own);
    MappedUpper(m, t, vpn + k, pte, own);
    hide InvBut, Lookup, InRange, Digit, Up, MakePte, WithV, Leafy, UserOk, Ppn, ValidPte, SetPte;
    var m' := MappedPage(m, t, vpn + k, pte, own);
    MapOneMaps(m0, m, m', root, vpn, k, ppn, perm, t, pte);
    hide SameUpper, MapsAfter;
    var k' := k + 1;
    forall x: nat | x < |m0.page| ensures PageAfter(m0, m', root, vpn, k', ppn, own, x) {
      assert PageAfter(m0, m, root, vpn, k, ppn, own, x);
    }
  }

  lemma MapOneMaps(m0: Mem, m: Mem, m': Mem, root: nat, vpn: nat, k: nat, ppn: nat, perm: nat, t: nat, pte: nat)
    requires perm < 1024 && pte == MakePte(ppn + k, WithV(perm)) && Inv(m) && IsRoot(m, root)
    requires IsTable(m, t) && t < |m.owner| && m.owner[t].Node? && m.owner[t].d == 1 && m.owner[t].root == root
             && m.fan > 0
    requires m.owner[t].key == Up(vpn + k, m.fan) && m'.page == SetPte(m, t, Digit(vpn + k, m.fan), pte).page
             && SameUpper(m, m')
    requires InRange(vpn + k, m.fan) && MapsAfter(m0, m, root, vpn, k, ppn, perm)
    ensures IsRoot(m', root) && MapsAfter(m0, m', root, vpn, k + 1, ppn, perm)
  {
    hide InvBut, Lookup, InRange, Digit, Up, MakePte, WithV, SetPte, SameUpper;
    SetLookup(m, m', t, vpn + k, pte, root, vpn + k);
    UpperFan(m, m');
    forall r: nat, v: nat | IsRoot(m0, r) && InRange(v, m0.fan)
      ensures IsRoot(m', r) && Lookup(m', r, v) ==
              if r == root && vpn <= v < vpn + (k + 1) then MakePte(ppn + (v - vpn), WithV(perm)) else Lookup(m0, r, v)
    {
      SetLookup(m, m', t, vpn + k, pte, r, v);
    }
  }

  lemma UpperFan(m: Mem, m': Mem)
    requires SameUpper(m, m')
    ensures m'.fan == m.fan
  {
  }

  lemma KinitInv(m: Mem)
    requires Sizes(m) && m.hi == |m.page| && |m.free| == m.hi - m.lo
    requires forall j :: 0 <= j < |m.free| ==> m.free[j] == m.hi - 1 - j
    requires forall x: nat :: x < |m.page| ==> m.owner[x] == if m.lo <= x then Free else Kernel
    ensures Inv(m) && forall x: nat :: x < |m.page| ==> (x in m.free <==> m.lo <= x)
  {
    forall x: nat | x < |m.page| ensures x in m.free <==> m.lo <= x {
      if m.lo <= x {
        assert m.free[m.hi - 1 - x] == x;
      }
    }
    forall n: nat | n < |m.page| ensures PageOk(m, n) {}
    forall t: nat, i: nat | t < |m.page| && i < m.fan ensures EntryOk(m, t, i) {}
  }

  lemma CreateKeeps(m0: Mem, m: Mem, c: nat)
    requires Inv(m0) && Sizes(m0) && FreeOk(m0) && m0.free != [] && c == m0.free[0]
    requires var m1 := Kalloced(m0); m == m1.(page := m1.page[c := ZeroTable(m0.fan)],
             owner := m1.owner[c := Node(c, 3, 0, 0)])
    ensures Inv(m) && Keeps(m0, m) && SameMaps(m0, m) && IsRoot(m, c)
    ensures forall v: nat :: InRange(v, m.fan) ==> Lookup(m, c, v) == 0
  {
    KallocKeeps(m0);
    var x, m1 := |m0.page|, Kalloced(m0);
    KnowSizes(m1, x, 0);
    KnowPage(m1, x, 0, c);
    assert Keeps(m0, m) && SameTables(m0, m);
    hide InvBut, InRange, PageOk, EntryOk, Filled, FreeOk, Lookup, Keeps, SameTables, ZeroTable;
    forall n: nat | n < |m.page| ensures PageOk(m, n) && (m.owner[n].Free? ==> n in m.free) {
      KnowPage(m1, x, 0, n);
      CreatePage(m1, m, c, n);
    }
    forall t: nat, i: nat | t < |m.page| && i < m.fan ensures EntryOk(m, t, i) {
      KnowEntry(m1, x, 0, t, i);
      CreateEntry(m1, m, c, t, i);
    }
    FreeKept(m1, m);
    Assembled(m, x, 0);
    TablesMaps(m0, m);
    forall v: nat | InRange(v, m.fan) ensures Lookup(m, c, v) == 0 {
      EmptyLookup(m, c, v);
    }
  }

  lemma CreatePage(m1: Mem, m: Mem, c: nat, n: nat)
    requires Sizes(m1) && c < |m1.page| && n < |m1.page| && m1.owner[c].Loose? && PageOk(m1, c) && PageOk(m1, n)
    requires m == m1.(page := m1.page[c := ZeroTable(m1.fan)], owner := m1.owner[c := Node(c, 3, 0, 0)])
    ensures PageOk(m, n)
  {
    hide Up, Digit, ValidPte, Ppn, ZeroTable;
  }

  lemma CreateEntry(m1: Mem, m: Mem, c: nat, t: nat, i: nat)
    requires Sizes(m1) && c < |m1.page| && t < |m1.page| && i < m1.fan && m1.owner[c].Loose? && EntryOk(m1, t, i)
    requires m == m1.(page := m1.page[c := ZeroTable(m1.fan)], owner := m1.owner[c := Node(c, 3, 0, 0)])
    ensures EntryOk(m, t, i)
  {
    hide Up, Digit, ValidPte, Ppn, ZeroTable, Leafy, UserOk;
    PteFacts();
  }

  lemma EmptyLookup(m: Mem, c: nat, v: nat)
    requires m.fan > 0 && c < |m.page| && m.page[c] == ZeroTable(m.fan)
    ensures Lookup(m, c, v) == 0
  {
    hide Up, Digit, ValidPte, Ppn, ZeroTable, Key;
    PteFacts();
    assert Path(m, c, v, 3) == c;
    assert Path(m, c, v, 2) == -1;
    assert Path(m, c, v, 1) == -1;
  }

  lemma WalkStarts(m: Mem, root: nat, vpn: nat)
    requires Inv(m) && IsRoot(m, root) && InRange(vpn, m.fan)
    ensures Sizes(m) && Keeps(m, m) && SameMaps(m, m) && Path(m, root, vpn, 3) == root && IsTable(m, root)
  {
    hide InvBut, Lookup, InRange, PageOk, EntryOk;
    KnowSizes(m, |m.page|, 0);
    PathOwner(m, root, vpn, 3);
  }

  /** The entry walk looks at next, and the table behind it. */
  lemma WalkStep(m: Mem, root: nat, vpn: nat, level: nat)
    requires Inv(m) && IsRoot(m, root) && InRange(vpn, m.fan) && 1 <= level <= 2 && m.fan > 0
    requires IsTable(m, Path(m, root, vpn, level + 1))
    ensures var t := Path(m, root, vpn, level + 1);
            var pte := Pte(m, t, Digit(Key(vpn, level, m.fan), m.fan));
            if ValidPte(pte) then Path(m, root, vpn, level) == Ppn(pte) && IsTable(m, Ppn(pte))
              else Path(m, root, vpn, level) == -1
    ensures var t := Path(m, root, vpn, level + 1); m.owner[t].Node? && m.owner[t].d == level + 1
  {
    hide InvBut, InRange, PageOk, EntryOk, Key, Digit, Up;
    PathOwner(m, root, vpn, level);
    PathOwner(m, root, vpn, level + 1);
  }

  lemma WalkGap(m: Mem, root: nat, vpn: nat, level: nat)
    requires m.fan > 0 && 1 <= level <= 2 && Path(m, root, vpn, level) == -1
    ensures Path(m, root, vpn, 1) == -1
  {
  }

  /** How many tables walk has to create on the way to `vpn`. */
  function Missing(m: Mem, root: nat, vpn: nat): (n: nat)
    requires m.fan > 0
    ensures n <= 2
  {
    if Path(m, root, vpn, 2) < 0 then 2 else if Path(m, root, vpn, 1) < 0 then 1 else 0
  }

  lemma NothingMissing(m: Mem, root: nat, vpn: nat)
    requires m.fan > 0 && Path(m, root, vpn, 1) >= 0
    ensures Missing(m, root, vpn) == 0
  {
  }

  lemma SomeMissing(m: Mem, root: nat, vpn: nat)
    requires m.fan > 0 && Path(m, root, vpn, 1) < 0
    ensures Missing(m, root, vpn) > 0
  {
  }

  lemma SameMissing(m: Mem, m': Mem, root: nat, vpn: nat)
    requires Inv(m) && SameTables(m, m') && IsRoot(m, root) && InRange(vpn, m.fan)
    ensures m.fan > 0 && m'.fan > 0 && Missing(m', root, vpn) == Missing(m, root, vpn)
  {
    hide InvBut, InRange;
    KnowSizes(m, |m.page|, 0);
    SamePath(m, m', root, vpn, 1);
    SamePath(m, m', root, vpn, 2);
  }

  /** Page `vpn` is not mapped and cannot be had: a page for it and the tables it lacks are more than are free. */
  predicate Starved(m: Mem, root: nat, vpn: nat) {
    m.fan > 0 && !ValidPte(Lookup(m, root, vpn)) && |m.free| < 1 + Missing(m, root, vpn)
  }

  predicate ReadOnly(m: Mem, root: nat, vpn: nat) {
    m.fan > 0 && UserPte(Lookup(m, root, vpn)) && !Writable(Lookup(m, root, vpn))
  }

  /** How many of the first `n` pages are mapped. */
  function Mapped(m: Mem, root: nat, n: nat): nat
    requires m.fan > 0
  {
    if n == 0 then 0 else Mapped(m, root, n - 1) + if ValidPte(Lookup(m, root, n - 1)) then 1 else 0
  }

  lemma {:induction false} MappedGrows(m: Mem, root: nat, i: nat, n: nat)
    requires m.fan > 0 && i <= n
    ensures Mapped(m, root, i) <= Mapped(m, root, n)
    decreases n
  {
    if i < n {
      MappedGrows(m, root, i, n - 1);
    }
  }

  lemma MappedNone(m: Mem, root: nat)
    requires m.fan > 0
    ensures Mapped(m, root, 0) == 0
  {
  }

  lemma MappedOne(m: Mem, root: nat, i: nat, n: nat)
    requires m.fan > 0 && i < n && ValidPte(Lookup(m, root, i))
    ensures Mapped(m, root, i) + 1 == Mapped(m, root, i + 1) <= Mapped(m, root, n)
  {
    MappedGrows(m, root, i + 1, n);
  }

  lemma MissingFrom(m: Mem, root: nat, vpn: nat, level: nat)
    requires m.fan > 0 && 1 <= level <= 2 && Path(m, root, vpn, level + 1) >= 0 && Path(m, root, vpn, level) == -1
    ensures Missing(m, root, vpn) == level
  {
  }

  /** One table linked in is one missing less. */
  lemma GrownMissing(m: Mem, root: nat, vpn: nat, d: nat)
    requires Inv(m) && IsRoot(m, root) && InRange(vpn, m.fan) && 1 <= d <= 2 && m.free != [] && m.free[0] < |m.page|
    requires Path(m, root, vpn, d + 1) >= 0
             && Linkable(Kalloced(m), Path(m, root, vpn, d + 1), Key(vpn, d, m.fan), m.free[0])
    requires var m2 := Linked(Kalloced(m), Path(m, root, vpn, d + 1), Key(vpn, d, m.fan), m.free[0]);
             Path(m2, root, vpn, d) == m.free[0]
    ensures var m2 := Linked(Kalloced(m), Path(m, root, vpn, d + 1), Key(vpn, d, m.fan), m.free[0]);
            m2.fan > 0 && Missing(m2, root, vpn) == d - 1
  {
    hide InvBut, InRange, Key, Digit, Up, MakePte;
    PteFacts();
  }

  lemma ReachedTable(m: Mem, root: nat, vpn: nat, level: nat)
    requires Inv(m) && IsRoot(m, root) && InRange(vpn, m.fan) && 1 <= level <= 2 && m.fan > 0
             && Path(m, root, vpn, level) >= 0
    ensures IsTable(m, Path(m, root, vpn, level)) && Sizes(m)
  {
    KnowSizes(m, |m.page|, 0);
    PathOwner(m, root, vpn, level);
  }

  lemma LinkedIs(m: Mem, m': Mem, t: nat, key: nat, c: nat)
    requires Linkable(m, t, key, c)
    requires var pages := m.page[c := ZeroTable(m.fan)];
             m' == m.(page := pages[t := Table(pages[t].ptes[Digit(key, m.fan) := MakePte(c, V)])],
                      owner := m.owner[c := Node(m.owner[t].root, m.owner[t].d - 1, key, t)])
    ensures m' == Linked(m, t, key, c)
  {
  }
}
