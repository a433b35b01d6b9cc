/**
  The three-level page table (Sv39, section 4.4 of the RISC-V Privileged Architecture 1.12) as a tree of
  physical pages, and the flat map it stands for.

  Sizes are symbolic: `fan` entries to a table page (512), `pg` bytes to a page (4096).  A virtual page
  number has three base-`fan` digits.  A node of depth 3 is a root, of depth 2 and 1 a lower table, of depth
  0 a mapped page; the node of depth `d` on the way to page `vpn` has the key `vpn` without its last `d` digits.
*/
module PageTable {
  import opened Machine

  // ---------------------------------------------------------------- page table entries

  const V := 1
  const R := 2
  const W := 4
  const U := 16

  predicate ValidPte(pte: nat) { pte % 2 == 1 }
  predicate Leafy(pte: nat) { (pte / 2) % 8 != 0 }           // any of R, W, X
  predicate Writable(pte: nat) { (pte / 4) % 2 == 1 }
  predicate UserOk(pte: nat) { (pte / 16) % 2 == 1 }
  function Ppn(pte: nat): nat { pte / 1024 }                 // PTE2PA, as a page number
  function Flags(pte: nat): (f: nat) ensures f < 1024 { pte % 1024 }

  /** PA2PTE(pa) | flags. */
  function MakePte(ppn: nat, flags: nat): nat
    requires flags < 1024
  {
    ppn * 1024 + flags
  }

  /** perm | PTE_V. */
  function WithV(perm: nat): (f: nat)
    requires perm < 1024
    ensures f < 1024 && ValidPte(f) && Leafy(f) == Leafy(perm) && UserOk(f) == UserOk(perm)
            && Writable(f) == Writable(perm)
  {
    if perm % 2 == 1 then perm else perm + 1
  }

  /** Packing a page number and flags into an entry loses neither. */
  lemma PteParts(ppn: nat, flags: nat)
    requires flags < 1024
    ensures var pte := MakePte(ppn, flags);
            && Ppn(pte) == ppn && Flags(pte) == flags && ValidPte(pte) == ValidPte(flags)
            && Leafy(pte) == Leafy(flags) && Writable(pte) == Writable(flags) && UserOk(pte) == UserOk(flags)
  {
    BitField(ppn, flags, 2, 8, 64);
    BitField(ppn, flags, 4, 2, 128);
    BitField(ppn, flags, 16, 2, 32);
    DivModUnique(MakePte(ppn, flags), 1024, ppn, flags);
    ModShift(flags, 512 * ppn, 2);
  }

  /** A bit field of the flags is read from the entry at the same place. */
  lemma BitField(ppn: nat, flags: nat, at: nat, width: nat, rest: nat)
    requires flags < 1024 && at > 0 && width > 0 && 1024 == at * (width * rest)
    ensures (MakePte(ppn, flags) / at) % width == (flags / at) % width
  {
    var q, r := flags / at, flags % at;
    assert flags == q * at + r;
    var more := (ppn * rest) * width;
    assert ppn * 1024 == more * at by {
      assert ppn * (at * (width * rest)) == ((ppn * rest) * width) * at;
    }
    assert MakePte(ppn, flags) == (more + q) * at + r;
    DivModUnique(MakePte(ppn, flags), at, more + q, r);
    ModShift(q, ppn * rest, width);
  }

  // ---------------------------------------------------------------- virtual page numbers

  function Up(k: nat, fan: nat): nat
    requires fan > 0
  {
    Quot(k, fan)
  }

  function Digit(k: nat, fan: nat): (i: nat)
    requires fan > 0
    ensures i < fan
  {
    Rest(k, fan)
  }

  /** `vpn` without its last `d` digits; a root's key is 0. */
  function Key(vpn: nat, d: nat, fan: nat): nat
    requires fan > 0
  {
    if d == 0 then vpn else if d >= 3 then 0 else Up(Key(vpn, d - 1, fan), fan)
  }

  /** A number is its leading part and its last digit. */
  lemma SameKey(a: nat, b: nat, fan: nat)
    requires fan > 0 && Up(a, fan) == Up(b, fan) && Digit(a, fan) == Digit(b, fan)
    ensures a == b
  {
    assert a == fan * (a / fan) + a % fan;
    assert b == fan * (b / fan) + b % fan;
  }

  /** The page number has no more than three digits.  MAXVA is half of that range. */
  predicate InRange(vpn: nat, fan: nat)
    requires fan > 0
  {
    Up(Up(Up(vpn, fan), fan), fan) == 0
  }

  /** Page numbers below `top` have at most three digits. */
  predicate Spans(top: nat, fan: nat) {
    top <= fan * (fan * fan)
  }

  lemma BelowTop(v: nat, top: nat, fan: nat)
    requires fan > 0 && Spans(top, fan) && v < top
    ensures InRange(v, fan)
  {
    UpBelow(v, fan * fan, fan);
    UpBelow(Up(v, fan), fan, fan);
    UpBelow(Up(Up(v, fan), fan), 1, fan);
  }

  lemma UpBelow(v: nat, n: nat, fan: nat)
    requires fan > 0 && v < fan * n
    ensures Up(v, fan) < n
  {
    var q := v / fan;
    assert v == fan * q + v % fan;
    assert q >= n ==> fan * q >= fan * n;
  }

  // ---------------------------------------------------------------- memory

  datatype Page = Table(ptes: seq<nat>) | Bytes(data: seq<byte>)

  /** Who has a physical page: the free list; nobody yet (just allocated); the kernel itself; or a page
      table, as the node of depth `d` with key `key`, referred to from node `up`. */
  datatype Owner = Free | Loose | Kernel | Node(root: nat, d: nat, key: nat, up: nat)

  /** `top` is MAXVA in pages, `lo..hi` are the pages kalloc hands out, `free` is the free list from its head on. */
  datatype Mem = Mem(fan: nat, pg: nat, top: nat, lo: nat, hi: nat, page: seq<Page>, free: seq<nat>, owner: seq<Owner>)

  predicate Sizes(m: Mem) {
    m.fan > 0 && m.pg > 0 && m.lo <= m.hi <= |m.page| && |m.owner| == |m.page|
  }

  predicate IsTable(m: Mem, t: int) {
    0 <= t < |m.page| && m.page[t].Table? && |m.page[t].ptes| == m.fan
  }

  function Pte(m: Mem, t: nat, i: nat): nat
    requires IsTable(m, t) && i < m.fan
  {
    m.page[t].ptes[i]
  }

  /** The page behind digit `i` of table `t`, or -1. */
  function Below(m: Mem, t: int, i: nat): int
    requires i < m.fan
  {
    if IsTable(m, t) && ValidPte(Pte(m, t, i)) then Ppn(Pte(m, t, i)) else -1
  }

  /** The node of depth `d` on the way from `root` to `vpn`, or -1. */
  function Path(m: Mem, root: nat, vpn: nat, d: nat): int
    requires m.fan > 0 && d <= 3
    decreases 3 - d
  {
    if d == 3 then root else Below(m, Path(m, root, vpn, d + 1), Digit(Key(vpn, d, m.fan), m.fan))
  }

  /** The flat map: the entry for `vpn`, 0 when there is none. */
  function Lookup(m: Mem, root: nat, vpn: nat): nat
    requires m.fan > 0
  {
    var t := Path(m, root, vpn, 1);
    if IsTable(m, t) then Pte(m, t, Digit(vpn, m.fan)) else 0
  }

  // ---------------------------------------------------------------- the invariant

  predicate PageOk(m: Mem, n: nat)
    requires Sizes(m) && n < |m.page|
  {
    var o := m.owner[n];
    && (!o.Kernel? ==> m.lo <= n < m.hi)
    && (o.Node? ==>
          && o.d <= 3
          && (o.d >= 1 ==> IsTable(m, n))
          && (o.d == 0 ==> m.page[n].Bytes? && |m.page[n].data| == m.pg)
          && (o.d == 3 ==> o.key == 0 && o.root == n)
          && (o.d < 3 ==>
                && o.up < |m.page| && m.owner[o.up].Node? && m.owner[o.up].root == o.root && m.owner[o.up].d == o.d + 1
                && m.owner[o.up].key == (if o.d == 2 then 0 else Up(o.key, m.fan))
                && (o.d == 2 ==> Up(o.key, m.fan) == 0)
                && Below(m, o.up, Digit(o.key, m.fan)) == n))
  }

  /** Where entry `i` of the table of depth `d` and key `key` at page `t` may point. */
  predicate EntryOk(m: Mem, t: nat, i: nat)
    requires Sizes(m) && t < |m.page| && i < m.fan
  {
    var o := m.owner[t];
    o.Node? && o.d >= 1 && IsTable(m, t) ==>
      var pte := Pte(m, t, i);
      if !ValidPte(pte) then pte == 0
      else
        && Ppn(pte) < |m.page|
        && var c := m.owner[Ppn(pte)];
           var child := c.Node? && c.root == o.root && c.d == o.d - 1 && c.up == t && Digit(c.key, m.fan) == i;
           if o.d > 1 then child && !Leafy(pte) else Leafy(pte) && (child || (c.Kernel? && !UserOk(pte)))
  }

  predicate FreeOk(m: Mem)
    requires Sizes(m)
  {
    && (forall j :: 0 <= j < |m.free| ==> m.free[j] < |m.page| && m.owner[m.free[j]].Free?)
    && (forall j, k :: 0 <= j < k < |m.free| ==> m.free[j] != m.free[k])
  }

  /** The invariant, except that entry `y` of table `x` may be stale. */
  ghost predicate InvBut(m: Mem, x: nat, y: nat) {
    && Sizes(m) && FreeOk(m)
    && (forall n: nat :: n < |m.page| ==> PageOk(m, n))
    && (forall t: nat, i: nat :: t < |m.page| && i < m.fan && !(t == x && i == y) ==> EntryOk(m, t, i))
    && (forall n: nat :: n < |m.page| && m.owner[n].Free? ==> n in m.free)
  }

  ghost predicate Inv(m: Mem) {
    InvBut(m, |m.page|, 0)
  }

  predicate IsRoot(m: Mem, root: nat) {
    root < |m.owner| && m.owner[root].Node? && m.owner[root].d == 3
  }

  lemma KnowSizes(m: Mem, x: nat, y: nat)
    requires InvBut(m, x, y)
    ensures Sizes(m) && FreeOk(m)
  {
  }

  lemma KnowPage(m: Mem, x: nat, y: nat, n: nat)
    requires InvBut(m, x, y) && n < |m.page|
    ensures Sizes(m) && PageOk(m, n) && (m.owner[n].Free? ==> n in m.free)
  {
  }

  lemma KnowEntry(m: Mem, x: nat, y: nat, t: nat, i: nat)
    requires InvBut(m, x, y) && t < |m.page| && i < m.fan && !(t == x && i == y)
    ensures Sizes(m) && EntryOk(m, t, i)
  {
  }

  lemma Assembled(m: Mem, x: nat, y: nat)
    requires Sizes(m) && FreeOk(m)
    requires forall n: nat :: n < |m.page| ==> PageOk(m, n) && (m.owner[n].Free? ==> n in m.free)
    requires forall t: nat, i: nat :: t < |m.page| && i < m.fan && !(t == x && i == y) ==> EntryOk(m, t, i)
    ensures InvBut(m, x, y)
  {
  }

  /** Every page of the pool is free, just allocated, or at one place of one page table, and the nodes on a
      path are what their owners say. */
  lemma {:induction false} PathOwner(m: Mem, root: nat, vpn: nat, d: nat)
    requires Inv(m) && IsRoot(m, root) && 1 <= d <= 3 && InRange(vpn, m.fan)
    ensures var t := Path(m, root, vpn, d);
            t == -1 || (0 <= t < |m.page| && IsTable(m, t) && m.owner[t].Node? && m.owner[t].root == root
                        && m.owner[t].d == d && m.owner[t].key == Key(vpn, d, m.fan))
    decreases 3 - d
  {
    var x := |m.page|;
    KnowSizes(m, x, 0);
    hide InvBut, Up, Digit;
    KnowPage(m, x, 0, root);
    if d < 3 {
      PathOwner(m, root, vpn, d + 1);
      var t := Path(m, root, vpn, d + 1);
      var i := Digit(Key(vpn, d, m.fan), m.fan);
      if t != -1 && ValidPte(Pte(m, t, i)) {
        KnowEntry(m, x, 0, t, i);
        var c := Ppn(Pte(m, t, i));
        KnowPage(m, x, 0, c);
        assert Up(m.owner[c].key, m.fan) == Up(Key(vpn, d, m.fan), m.fan) by { KeyUp(vpn, d, m.fan); }
        SameKey(m.owner[c].key, Key(vpn, d, m.fan), m.fan);
      }
    }
  }

  lemma KeyUp(vpn: nat, d: nat, fan: nat)
    requires fan > 0 && 1 <= d <= 2 && InRange(vpn, fan)
    ensures Up(Key(vpn, d, fan), fan) == if d == 2 then 0 else Key(vpn, d + 1, fan)
  {
    hide Up;
    assert Key(vpn, 1, fan) == Up(vpn, fan);
    assert Key(vpn, 2, fan) == Up(Up(vpn, fan), fan);
  }

  /** A node of the tree is on the path to every page number below it. */
  lemma {:induction false} OwnerPath(m: Mem, n: nat, vpn: nat)
    requires Inv(m) && n < |m.page| && m.owner[n].Node? && m.owner[n].d <= 2 && InRange(vpn, m.fan)
    requires Key(vpn, m.owner[n].d, m.fan) == m.owner[n].key
    ensures IsRoot(m, m.owner[n].root) && Path(m, m.owner[n].root, vpn, m.owner[n].d) == n
    decreases 3 - m.owner[n].d
  {
    var x := |m.page|;
    KnowSizes(m, x, 0);
    hide InvBut, Up, Digit;
    KnowPage(m, x, 0, n);
    var o := m.owner[n];
    KnowPage(m, x, 0, o.up);
    if o.d < 2 {
      KeyOfUp(vpn, o.d, m.fan);
      OwnerPath(m, o.up, vpn);
    }
  }

  lemma KeyOfUp(vpn: nat, d: nat, fan: nat)
    requires fan > 0 && d < 2
    ensures Key(vpn, d + 1, fan) == Up(Key(vpn, d, fan), fan)
  {
  }

  // ---------------------------------------------------------------- steps that change no table

  function Filled(n: nat, b: byte): (r: Page)
    ensures r.Bytes? && |r.data| == n && forall k :: 0 <= k < n ==> r.data[k] == b
  {
    Bytes(seq(n, k => b))
  }

  /** kalloc on a non-empty free list. */
  function Kalloced(m: Mem): Mem
    requires Sizes(m) && m.free != [] && m.free[0] < |m.page|
  {
    var c := m.free[0];
    m.(page := m.page[c := Filled(m.pg, 5)], free := m.free[1..], owner := m.owner[c := Loose])
  }

  /** kfree. */
  function Kfreed(m: Mem, c: nat): Mem
    requires Sizes(m) && c < |m.page|
  {
    m.(page := m.page[c := Filled(m.pg, 1)], free := [c] + m.free, owner := m.owner[c := Free])
  }

  /** Tables are untouched from `m` to `m'`, so the flat maps are too. */
  predicate SameTables(m: Mem, m': Mem) {
    && Sizes(m) && Sizes(m') && m'.fan == m.fan && m'.pg == m.pg && m'.lo == m.lo && m'.hi == m.hi && m'.top == m.top
       && |m'.page| == |m.page|
    && forall t: nat :: t < |m.page| && m.owner[t].Node? ==> m'.owner[t] == m.owner[t] && m'.page[t] == m.page[t]
  }

  lemma {:induction false} SamePath(m: Mem, m': Mem, root: nat, vpn: nat, d: nat)
    requires Inv(m) && SameTables(m, m') && IsRoot(m, root) && InRange(vpn, m.fan) && 1 <= d <= 3
    ensures Path(m', root, vpn, d) == Path(m, root, vpn, d)
    decreases 3 - d
  {
    hide InvBut, Up, Digit, InRange;
    if d < 3 {
      SamePath(m, m', root, vpn, d + 1);
      PathOwner(m, root, vpn, d + 1);
    }
  }

  lemma SameLookup(m: Mem, m': Mem, root: nat, vpn: nat)
    requires Inv(m) && SameTables(m, m') && IsRoot(m, root) && InRange(vpn, m.fan)
    ensures IsRoot(m', root) && Lookup(m', root, vpn) == Lookup(m, root, vpn)
  {
    hide InvBut, Up, Digit, InRange;
    SamePath(m, m', root, vpn, 1);
    PathOwner(m, root, vpn, 1);
  }

  /** Changing a page that is in no tree, and its owner to another that is in no tree. */
  lemma OutsidePage(m: Mem, m': Mem, c: nat, n: nat)
    requires SameTables(m, m') && c < |m.page| && n < |m.page| && PageOk(m, n) && PageOk(m, c)
    requires !m.owner[c].Node? && !m'.owner[c].Node? && (m'.owner[c].Kernel? <==> m.owner[c].Kernel?)
    requires n != c ==> m'.owner[n] == m.owner[n]
    ensures PageOk(m', n)
  {
    hide Up, Digit, ValidPte, Ppn;
  }

  lemma OutsideEntry(m: Mem, m': Mem, c: nat, t: nat, i: nat)
    requires SameTables(m, m') && c < |m.page| && t < |m.page| && i < m.fan && EntryOk(m, t, i)
    requires !m.owner[c].Node? && !m.owner[c].Kernel? && !m'.owner[c].Node?
    requires forall n: nat :: n < |m.page| && n != c ==> m'.owner[n] == m.owner[n]
    ensures EntryOk(m', t, i)
  {
    hide Up, Digit, ValidPte, Leafy, UserOk, Ppn;
  }

  lemma FreePopped(m: Mem)
    requires Sizes(m) && FreeOk(m) && m.free != []
    ensures m.free[0] < |m.page| && FreeOk(Kalloced(m))
    ensures forall n: nat :: n in m.free && n != m.free[0] ==> n in m.free[1..]
  {
    hide Filled;
    assert m.free == [m.free[0]] + m.free[1..];
  }

  lemma FreePushed(m: Mem, c: nat)
    requires Sizes(m) && FreeOk(m) && c < |m.page| && !m.owner[c].Free?
    ensures FreeOk(Kfreed(m, c))
  {
    hide Filled;
    var m' := Kfreed(m, c);
    assert m'.free[0] == c && m'.free[1..] == m.free;
  }

  lemma KallocKeeps(m: Mem)
    requires Inv(m) && m.free != []
    ensures m.free[0] < |m.page| && m.owner[m.free[0]].Free?
    ensures Inv(Kalloced(m)) && SameTables(m, Kalloced(m))
  {
    var x := |m.page|;
    KnowSizes(m, x, 0);
    FreePopped(m);
    hide FreeOk, InvBut, PageOk, EntryOk, Filled;
    var m', c := Kalloced(m), m.free[0];
    KnowPage(m, x, 0, c);
    forall n: nat | n < |m.page| ensures PageOk(m', n) && (m'.owner[n].Free? ==> n in m'.free) {
      KnowPage(m, x, 0, n);
      OutsidePage(m, m', c, n);
    }
    forall t: nat, i: nat | t < |m.page| && i < m.fan ensures EntryOk(m', t, i) {
      KnowEntry(m, x, 0, t, i);
      OutsideEntry(m, m', c, t, i);
    }
    Assembled(m', x, 0);
  }

  lemma KfreeKeeps(m: Mem, c: nat, x: nat, y: nat)
    requires InvBut(m, x, y) && c < |m.page| && m.owner[c].Loose?
    ensures Sizes(m) && m.lo <= c < m.hi && InvBut(Kfreed(m, c), x, y) && SameTables(m, Kfreed(m, c))
  {
    KnowSizes(m, x, y);
    KnowPage(m, x, y, c);
    FreePushed(m, c);
    assert m.lo <= c < m.hi;
    hide FreeOk, InvBut, PageOk, EntryOk, Filled;
    var m' := Kfreed(m, c);
    forall n: nat | n < |m.page| ensures PageOk(m', n) && (m'.owner[n].Free? ==> n in m'.free) {
      KnowPage(m, x, y, n);
      OutsidePage(m, m', c, n);
    }
    forall t: nat, i: nat | t < |m.page| && i < m.fan && !(t == x && i == y) ensures EntryOk(m', t, i) {
      KnowEntry(m, x, y, t, i);
      OutsideEntry(m, m', c, t, i);
    }
    Assembled(m', x, y);
  }

  lemma FreeKept(m: Mem, m': Mem)
    requires Sizes(m) && Sizes(m') && FreeOk(m) && m'.free == m.free && |m'.page| == |m.page|
    requires forall n: nat :: n < |m.page| && m.owner[n].Free? ==> m'.owner[n].Free?
    ensures FreeOk(m')
  {
  }

  // ---------------------------------------------------------------- linking a lower table

  /** `m` with entry `i` of table `t` replaced. */
  function SetPte(m: Mem, t: nat, i: nat, pte: nat): (r: Mem)
    requires IsTable(m, t) && i < m.fan
    ensures r == m.(page := r.page) && IsTable(r, t) && |r.page| == |m.page|
    ensures forall j: nat :: j < m.fan ==> Pte(r, t, j) == if j == i then pte else Pte(m, t, j)
    ensures forall n: nat :: n < |m.page| && n != t ==> r.page[n] == m.page[n]
  {
    m.(page := m.page[t := Table(m.page[t].ptes[i := pte])])
  }

  function ZeroTable(fan: nat): (r: Page)
    ensures r.Table? && |r.ptes| == fan && forall i :: 0 <= i < fan ==> r.ptes[i] == 0
  {
    Table(seq(fan, i => 0))
  }

  /** What walk does with a fresh page `c`: zero it and make entry `i` of `t` point to it. */
  function Linked(m: Mem, t: nat, key: nat, c: nat): Mem
    requires Sizes(m) && IsTable(m, t) && c < |m.page| && c != t && m.owner[t].Node? && m.owner[t].d > 0
  {
    var o := m.owner[t];
    SetPte(m.(page := m.page[c := ZeroTable(m.fan)], owner := m.owner[c := Node(o.root, o.d - 1, key, t)]),
           t, Digit(key, m.fan), MakePte(c, V))
  }

  predicate Linkable(m: Mem, t: nat, key: nat, c: nat) {
    && Sizes(m) && IsTable(m, t) && c < |m.page| && m.owner[c].Loose?
    && m.owner[t].Node? && 2 <= m.owner[t].d <= 3
    && m.owner[t].key == (if m.owner[t].d == 3 then 0 else Up(key, m.fan))
    && (m.owner[t].d == 3 ==> Up(key, m.fan) == 0)
    && Pte(m, t, Digit(key, m.fan)) == 0
  }

  lemma LinkPage(m: Mem, t: nat, key: nat, c: nat, n: nat)
    requires Linkable(m, t, key, c) && n < |m.page| && PageOk(m, n) && PageOk(m, c)
    ensures PageOk(Linked(m, t, key, c), n)
  {
    hide Up, Digit, SetPte, ZeroTable, MakePte, ValidPte, Leafy, Ppn;
    PteParts(c, V);
    PteFacts();
  }

  lemma LinkEntry(m: Mem, t: nat, key: nat, c: nat, s: nat, i: nat)
    requires Linkable(m, t, key, c) && s < |m.page| && i < m.fan && EntryOk(m, s, i)
    ensures EntryOk(Linked(m, t, key, c), s, i)
  {
    hide Up, Digit, SetPte, ZeroTable, MakePte, ValidPte, Leafy, Ppn;
    PteParts(c, V);
    PteFacts();
  }

  lemma LinkKeeps(m: Mem, t: nat, key: nat, c: nat)
    requires Inv(m) && Linkable(m, t, key, c)
    ensures Inv(Linked(m, t, key, c))
  {
    var x := |m.page|;
    KnowSizes(m, x, 0);
    KnowPage(m, x, 0, c);
    hide FreeOk, InvBut, Up, Digit, SetPte, ZeroTable, MakePte, PageOk, EntryOk;
    var m' := Linked(m, t, key, c);
    forall n: nat | n < |m.page| ensures PageOk(m', n) && (m'.owner[n].Free? ==> n in m'.free) {
      KnowPage(m, x, 0, n);
      LinkPage(m, t, key, c, n);
    }
    forall s: nat, i: nat | s < |m.page| && i < m.fan ensures EntryOk(m', s, i) {
      KnowEntry(m, x, 0, s, i);
      LinkEntry(m, t, key, c, s, i);
    }
    FreeKept(m, m');
    Assembled(m', x, 0);
  }

  lemma PteFacts()
    ensures !ValidPte(0) && ValidPte(V) && !Leafy(V)
  {
  }

  lemma {:induction false} LinkedPath(m: Mem, t: nat, key: nat, c: nat, root: nat, vpn: nat, d: nat)
    requires Inv(m) && Linkable(m, t, key, c) && IsRoot(m, root) && InRange(vpn, m.fan) && 1 <= d <= 3
    ensures var was, now := Path(m, root, vpn, d), Path(Linked(m, t, key, c), root, vpn, d);
            if was != -1 then now == was else now == -1 || now == c
    decreases 3 - d
  {
    PteParts(c, V);
    hide InvBut, Up, Digit, InRange, SetPte, ZeroTable, MakePte, ValidPte, Leafy, Ppn;
    assert !ValidPte(0) && ValidPte(V) && !Leafy(V) by { PteFacts(); }
    if d < 3 {
      LinkedPath(m, t, key, c, root, vpn, d + 1);
      PathOwner(m, root, vpn, d + 1);
    }
  }

  /** A new lower table changes nothing visible. */
  lemma LinkInvisible(m: Mem, t: nat, key: nat, c: nat, root: nat, vpn: nat)
    requires Inv(m) && Linkable(m, t, key, c) && IsRoot(m, root) && InRange(vpn, m.fan)
    ensures IsRoot(Linked(m, t, key, c), root) && Lookup(Linked(m, t, key, c), root, vpn) == Lookup(m, root, vpn)
  {
    hide InvBut, Up, Digit, InRange, SetPte, ZeroTable, MakePte, Path;
    LinkedPath(m, t, key, c, root, vpn, 1);
    PathOwner(m, root, vpn, 1);
  }

  // ---------------------------------------------------------------- mapping and unmapping a page

  /** Entry for page number `vpn` in its table `t` made `pte`; `own` hands the page over to the table. */
  function MappedPage(m: Mem, t: nat, vpn: nat, pte: nat, own: bool): Mem
    requires Sizes(m) && IsTable(m, t) && m.owner[t].Node? && Ppn(pte) < |m.page|
  {
    var m1 := SetPte(m, t, Digit(vpn, m.fan), pte);
    if own then m1.(owner := m.owner[Ppn(pte) := Node(m.owner[t].root, 0, vpn, t)]) else m1
  }

  predicate Mappable(m: Mem, t: nat, vpn: nat, pte: nat, own: bool) {
    && Sizes(m) && IsTable(m, t) && Ppn(pte) < |m.page| && ValidPte(pte) && Leafy(pte)
    && m.owner[t].Node? && m.owner[t].d == 1 && m.owner[t].key == Up(vpn, m.fan)
    && Pte(m, t, Digit(vpn, m.fan)) == 0
    && (if own then m.owner[Ppn(pte)].Loose? && m.page[Ppn(pte)].Bytes? && |m.page[Ppn(pte)].data| == m.pg
        else m.owner[Ppn(pte)].Kernel? && !UserOk(pte))
  }

  lemma MapPage(m: Mem, t: nat, vpn: nat, pte: nat, own: bool, n: nat)
    requires Mappable(m, t, vpn, pte, own) && n < |m.page| && PageOk(m, n) && PageOk(m, Ppn(pte))
    ensures PageOk(MappedPage(m, t, vpn, pte, own), n)
  {
    hide Up, Digit, SetPte, ValidPte, Leafy, Ppn, UserOk;
    PteFacts();
  }

  lemma MapEntry(m: Mem, t: nat, vpn: nat, pte: nat, own: bool, s: nat, i: nat)
    requires Mappable(m, t, vpn, pte, own) && s < |m.page| && i < m.fan && EntryOk(m, s, i)
    ensures EntryOk(MappedPage(m, t, vpn, pte, own), s, i)
  {
    hide Up, Digit, SetPte, ValidPte, Leafy, Ppn, UserOk;
    PteFacts();
  }

  lemma MapKeeps(m: Mem, t: nat, vpn: nat, pte: nat, own: bool)
    requires Inv(m) && Mappable(m, t, vpn, pte, own)
    ensures Inv(MappedPage(m, t, vpn, pte, own))
  {
    var x := |m.page|;
    KnowSizes(m, x, 0);
    KnowPage(m, x, 0, Ppn(pte));
    hide FreeOk, InvBut, Up, Digit, SetPte, PageOk, EntryOk, Ppn, ValidPte, Leafy, UserOk;
    var m' := MappedPage(m, t, vpn, pte, own);
    forall n: nat | n < |m.page| ensures PageOk(m', n) && (m'.owner[n].Free? ==> n in m'.free) {
      KnowPage(m, x, 0, n);
      MapPage(m, t, vpn, pte, own, n);
    }
    forall s: nat, i: nat | s < |m.page| && i < m.fan ensures EntryOk(m', s, i) {
      KnowEntry(m, x, 0, s, i);
      MapEntry(m, t, vpn, pte, own, s, i);
    }
    FreeKept(m, m');
    Assembled(m', x, 0);
  }

  /** Only tables of depth 1 differ, so paths down to depth 1 are the same. */
  ghost predicate SameUpper(m: Mem, m': Mem) {
    && Sizes(m) && Sizes(m') && m'.fan == m.fan && |m'.page| == |m.page|
    && (forall t: nat :: t < |m.page| && m.owner[t].Node? && m.owner[t].d >= 1 ==>
         m'.owner[t] == m.owner[t] && IsTable(m', t))
    && (forall t: nat :: t < |m.page| && m.owner[t].Node? && m.owner[t].d >= 2 ==> m'.page[t] == m.page[t])
  }

  lemma {:induction false} SameUpperPath(m: Mem, m': Mem, root: nat, vpn: nat, d: nat)
    requires Inv(m) && SameUpper(m, m') && IsRoot(m, root) && InRange(vpn, m.fan) && 1 <= d <= 3
    ensures Path(m', root, vpn, d) == Path(m, root, vpn, d)
    decreases 3 - d
  {
    hide InvBut, Up, Digit, InRange;
    if d < 3 {
      SameUpperPath(m, m', root, vpn, d + 1);
      PathOwner(m, root, vpn, d + 1);
    }
  }

  /** Changing one entry of a depth-1 table changes the flat map at one page number of one root. */
  lemma SetLookup(m: Mem, m': Mem, t: nat, vpn: nat, pte: nat, root: nat, v: nat)
    requires Inv(m) && IsTable(m, t) && m.owner[t].Node? && m.owner[t].d == 1 && m.owner[t].key == Up(vpn, m.fan)
    requires m'.page == SetPte(m, t, Digit(vpn, m.fan), pte).page && SameUpper(m, m')
    requires InRange(vpn, m.fan) && IsRoot(m, root) && InRange(v, m.fan)
    ensures IsRoot(m', root)
    ensures Lookup(m', root, v) == if root == m.owner[t].root && v == vpn then pte else Lookup(m, root, v)
  {
    hide InvBut, Digit, InRange, SetPte, Path, Up;
    SameUpperPath(m, m', root, v, 1);
    PathOwner(m, root, v, 1);
    assert Key(v, 1, m.fan) == Up(v, m.fan) && Key(vpn, 1, m.fan) == Up(vpn, m.fan);
    var s, m1 := Path(m, root, v, 1), SetPte(m, t, Digit(vpn, m.fan), pte);
    assert s != -1 ==> IsTable(m', s) && Pte(m', s, Digit(v, m.fan)) == Pte(m1, s, Digit(v, m.fan));
    if s == t && Digit(v, m.fan) == Digit(vpn, m.fan) {
      SameKey(v, vpn, m.fan);
    }
    if root == m.owner[t].root && v == vpn {
      OwnerPath(m, t, vpn);
    }
  }

  /** Entry for `vpn` cleared; a page the table owned becomes nobody's. */
  function UnmappedPage(m: Mem, t: nat, vpn: nat): Mem
    requires Sizes(m) && IsTable(m, t)
  {
    var x := Ppn(Pte(m, t, Digit(vpn, m.fan)));
    var m1 := SetPte(m, t, Digit(vpn, m.fan), 0);
    if x < |m.page| && m.owner[x].Node? then m1.(owner := m.owner[x := Loose]) else m1
  }

  predicate Unmappable(m: Mem, t: nat, vpn: nat) {
    && Sizes(m) && IsTable(m, t) && m.owner[t].Node? && m.owner[t].d == 1
    && ValidPte(Pte(m, t, Digit(vpn, m.fan))) && EntryOk(m, t, Digit(vpn, m.fan))
  }

  lemma UnmapPage(m: Mem, t: nat, vpn: nat, n: nat)
    requires Unmappable(m, t, vpn) && n < |m.page| && PageOk(m, n) && PageOk(m, Ppn(Pte(m, t, Digit(vpn, m.fan))))
    ensures PageOk(UnmappedPage(m, t, vpn), n)
  {
    hide Up, Digit, SetPte, ValidPte, Leafy, Ppn, UserOk;
    PteFacts();
  }

  lemma UnmapEntry(m: Mem, t: nat, vpn: nat, s: nat, i: nat)
    requires Unmappable(m, t, vpn) && s < |m.page| && i < m.fan && EntryOk(m, s, i)
    ensures EntryOk(UnmappedPage(m, t, vpn), s, i)
  {
    hide Up, Digit, SetPte, ValidPte, Leafy, Ppn, UserOk;
    PteFacts();
  }

  lemma UnmapKeeps(m: Mem, t: nat, vpn: nat)
    requires Inv(m) && Unmappable(m, t, vpn)
    ensures Inv(UnmappedPage(m, t, vpn))
  {
    var y := |m.page|;
    KnowSizes(m, y, 0);
    KnowPage(m, y, 0, Ppn(Pte(m, t, Digit(vpn, m.fan))));
    hide FreeOk, InvBut, Up, Digit, SetPte, PageOk, EntryOk, Ppn, ValidPte;
    var m' := UnmappedPage(m, t, vpn);
    forall n: nat | n < |m.page| ensures PageOk(m', n) && (m'.owner[n].Free? ==> n in m'.free) {
      KnowPage(m, y, 0, n);
      UnmapPage(m, t, vpn, n);
    }
    forall s: nat, i: nat | s < |m.page| && i < m.fan ensures EntryOk(m', s, i) {
      KnowEntry(m, y, 0, s, i);
      UnmapEntry(m, t, vpn, s, i);
    }
    FreeKept(m, m');
    Assembled(m', y, 0);
  }

  // ---------------------------------------------------------------- what an operation leaves alone

  /** No page in use changed hands, no page leaked (became nobody's), and no page outside the tables changed
      its bytes. */
  ghost predicate Keeps(m: Mem, m': Mem) {
    && Sizes(m) && Sizes(m') && m'.fan == m.fan && m'.pg == m.pg && m'.lo == m.lo && m'.hi == m.hi && m'.top == m.top
       && |m'.page| == |m.page|
    && (forall n: nat :: n < |m.page| && !m.owner[n].Free? ==> m'.owner[n] == m.owner[n])
    && (forall n: nat ::
          n < |m.page| && (m.owner[n].Loose? || m.owner[n].Kernel? || (m.owner[n].Node? && m.owner[n].d == 0)) ==>
          m'.page[n] == m.page[n])
    && (forall n: nat :: n < |m.page| && m'.owner[n].Loose? ==> m.owner[n].Loose?)
  }

  /** The flat maps of all roots of `m` are the same in `m'`. */
  ghost predicate SameMaps(m: Mem, m': Mem) {
    && m.fan > 0 && m'.fan == m.fan
    && (forall root: nat, v: nat :: IsRoot(m, root) && InRange(v, m.fan) ==>
         IsRoot(m', root) && Lookup(m', root, v) == Lookup(m, root, v))
  }

  lemma KeepsTrans(m: Mem, m1: Mem, m2: Mem)
    requires Keeps(m, m1) && Keeps(m1, m2)
    ensures Keeps(m, m2)
  {
  }

  lemma KallocWhole(m: Mem)
    requires Inv(m) && m.free != []
    ensures m.free[0] < |m.page| && m.owner[m.free[0]].Free? && Inv(Kalloced(m))
    ensures SameMaps(m, Kalloced(m))
  {
    KallocKeeps(m);
    hide InvBut, PageOk, EntryOk, Path, Lookup, InRange;
    forall root: nat, v: nat | IsRoot(m, root) && InRange(v, m.fan)
      ensures IsRoot(Kalloced(m), root) && Lookup(Kalloced(m), root, v) == Lookup(m, root, v)
    {
      SameLookup(m, Kalloced(m), root, v);
    }
  }

  /** A fresh page from the free list linked as a table, seen from before the allocation. */
  lemma LinkedKeeps(m: Mem, t: nat, key: nat)
    requires Sizes(m) && m.free != [] && m.free[0] < |m.page| && m.owner[m.free[0]].Free?
    requires Linkable(Kalloced(m), t, key, m.free[0])
    ensures Keeps(m, Linked(Kalloced(m), t, key, m.free[0]))
  {
    hide Up, Digit, SetPte, ZeroTable, MakePte, ValidPte;
  }

  lemma LinkedMaps(m: Mem, t: nat, key: nat, c: nat)
    requires Inv(m) && Linkable(m, t, key, c)
    ensures SameMaps(m, Linked(m, t, key, c))
  {
    hide InvBut, PageOk, EntryOk, Path, Lookup, InRange, Up, Digit, SetPte, ZeroTable, MakePte;
    forall root: nat, v: nat | IsRoot(m, root) && InRange(v, m.fan)
      ensures IsRoot(Linked(m, t, key, c), root) && Lookup(Linked(m, t, key, c), root, v) == Lookup(m, root, v)
    {
      LinkInvisible(m, t, key, c, root, v);
    }
  }

  lemma LinkedReaches(m: Mem, root: nat, vpn: nat, d: nat, t: nat, c: nat)
    requires Inv(m) && IsRoot(m, root) && InRange(vpn, m.fan) && 1 <= d <= 2
    requires Path(m, root, vpn, d + 1) == t && Linkable(m, t, Key(vpn, d, m.fan), c)
    ensures Path(Linked(m, t, Key(vpn, d, m.fan), c), root, vpn, d) == c
  {
    LinkedPath(m, t, Key(vpn, d, m.fan), c, root, vpn, d + 1);
    hide InvBut, Up, Digit, InRange, SetPte, ZeroTable, MakePte, ValidPte, Leafy, Ppn, Key;
    PteParts(c, V);
    PteFacts();
  }

  /** The next table on the way to `vpn` is missing: a fresh page can be linked there. */
  lemma GapLinkable(m: Mem, root: nat, vpn: nat, d: nat)
    requires Inv(m) && IsRoot(m, root) && InRange(vpn, m.fan) && 1 <= d <= 2 && m.free != []
    requires Path(m, root, vpn, d + 1) >= 0 && Path(m, root, vpn, d) == -1
    ensures m.free[0] < |m.page| && m.owner[m.free[0]].Free? && Inv(Kalloced(m)) && SameMaps(m, Kalloced(m))
    ensures Linkable(Kalloced(m), Path(m, root, vpn, d + 1), Key(vpn, d, m.fan), m.free[0])
    ensures IsRoot(Kalloced(m), root) && Path(Kalloced(m), root, vpn, d + 1) == Path(m, root, vpn, d + 1)
  {
    KallocKeeps(m);
    KallocWhole(m);
    PathOwner(m, root, vpn, d + 1);
    KeyUp(vpn, d, m.fan);
    var t, i := Path(m, root, vpn, d + 1), Digit(Key(vpn, d, m.fan), m.fan);
    KnowEntry(m, |m.page|, 0, t, i);
    assert Path(m, root, vpn, d) == Below(m, t, i);
    SamePath(m, Kalloced(m), root, vpn, d + 1);
    hide InvBut, PageOk, Up, Digit, InRange, Key, Lookup, Path, SameMaps;
  }

  lemma MapsTrans(m: Mem, m1: Mem, m2: Mem)
    requires SameMaps(m, m1) && SameMaps(m1, m2)
    ensures SameMaps(m, m2)
  {
    hide Lookup, InRange;
  }

  /** One level of walk with alloc. */
  lemma GrowPath(m: Mem, root: nat, vpn: nat, d: nat)
    requires Inv(m) && IsRoot(m, root) && InRange(vpn, m.fan) && 1 <= d <= 2 && m.free != []
    requires Path(m, root, vpn, d + 1) >= 0 && Path(m, root, vpn, d) == -1
    ensures var t, c, m1 := Path(m, root, vpn, d + 1), m.free[0], Kalloced(m);
            && c < |m.page| && Linkable(m1, t, Key(vpn, d, m.fan), c)
            && var m2 := Linked(m1, t, Key(vpn, d, m.fan), c);
               Inv(m2) && Keeps(m, m2) && SameMaps(m, m2) && IsRoot(m2, root) && Path(m2, root, vpn, d) == c
  {
    var t, c, key := Path(m, root, vpn, d + 1), m.free[0], Key(vpn, d, m.fan);
    GapLinkable(m, root, vpn, d);
    KnowSizes(m, |m.page|, 0);
    hide InvBut, Linkable, Linked, Lookup, Keeps, InRange, Key, Path;
    var m1 := Kalloced(m);
    LinkKeeps(m1, t, key, c);
    LinkedKeeps(m, t, key);
    LinkedMaps(m1, t, key, c);
    MapsTrans(m, m1, Linked(m1, t, key, c));
    LinkedReaches(m1, root, vpn, d, t, c);
  }

  // ---------------------------------------------------------------- freeing tables

  /** Clearing an entry that points to a page already freed. */
  lemma ClearStaleKeeps(m: Mem, t: nat, i: nat)
    requires InvBut(m, t, i) && t < |m.page| && IsTable(m, t) && i < m.fan && m.owner[t].Node? && m.owner[t].d >= 1
    requires ValidPte(Pte(m, t, i)) ==> Ppn(Pte(m, t, i)) < |m.page| && !m.owner[Ppn(Pte(m, t, i))].Node?
    ensures Inv(SetPte(m, t, i, 0))
  {
    PteFacts();
    KnowSizes(m, t, i);
    hide FreeOk, InvBut, Up, Digit, SetPte, ValidPte, Leafy, Ppn, UserOk;
    var m' := SetPte(m, t, i, 0);
    forall n: nat | n < |m.page| ensures PageOk(m', n) && (m'.owner[n].Free? ==> n in m'.free) {
      KnowPage(m, t, i, n);
    }
    forall s: nat, j: nat | s < |m.page| && j < m.fan ensures EntryOk(m', s, j) {
      if !(s == t && j == i) {
        KnowEntry(m, t, i, s, j);
      }
    }
    FreeKept(m, m');
    Assembled(m', |m'.page|, 0);
  }

  /** The one entry that points to node `t`; a root has none. */
  function ParentPage(m: Mem, t: nat): nat
    requires t < |m.owner| && m.owner[t].Node?
  {
    if m.owner[t].d == 3 then |m.page| else m.owner[t].up
  }

  function ParentEntry(m: Mem, t: nat): nat
    requires t < |m.owner| && m.owner[t].Node? && m.fan > 0
  {
    if m.owner[t].d == 3 then 0 else Digit(m.owner[t].key, m.fan)
  }

  predicate Emptied(m: Mem, t: nat) {
    t < |m.owner| && IsTable(m, t) && m.owner[t].Node? && m.owner[t].d >= 1
      && forall i: nat :: i < m.fan ==> Pte(m, t, i) == 0
  }

  lemma EmptiedPage(m: Mem, t: nat, n: nat)
    requires Sizes(m) && Emptied(m, t) && n < |m.page| && PageOk(m, n) && PageOk(m, t)
    ensures PageOk(Kfreed(m, t), n)
  {
    hide Up, Digit, Filled, ValidPte, Ppn;
    PteFacts();
  }

  lemma EmptiedEntry(m: Mem, t: nat, s: nat, i: nat)
    requires Sizes(m) && Emptied(m, t) && s < |m.page| && i < m.fan && EntryOk(m, s, i) && PageOk(m, s)
    requires !(s == ParentPage(m, t) && i == ParentEntry(m, t))
    ensures EntryOk(Kfreed(m, t), s, i)
  {
    hide Up, Digit, Filled, ValidPte, Ppn, Leafy, UserOk;
  }

  /** An empty table can be freed; only the entry that points to it is stale afterwards. */
  lemma FreeTableKeeps(m: Mem, t: nat)
    requires Inv(m) && t < |m.page| && Emptied(m, t)
    ensures Sizes(m) && m.lo <= t < m.hi && InvBut(Kfreed(m, t), ParentPage(m, t), ParentEntry(m, t))
  {
    var x := |m.page|;
    KnowSizes(m, x, 0);
    KnowPage(m, x, 0, t);
    assert m.lo <= t < m.hi;
    FreePushed(m, t);
    hide FreeOk, InvBut, Up, Digit, Emptied, PageOk, EntryOk, Filled;
    var m' := Kfreed(m, t);
    forall n: nat | n < |m.page| ensures PageOk(m', n) && (m'.owner[n].Free? ==> n in m'.free) {
      KnowPage(m, x, 0, n);
      EmptiedPage(m, t, n);
    }
    forall s: nat, i: nat | s < |m.page| && i < m.fan && !(s == ParentPage(m, t) && i == ParentEntry(m, t))
      ensures EntryOk(m', s, i) {
      KnowEntry(m, x, 0, s, i);
      KnowPage(m, x, 0, s);
      EmptiedEntry(m, t, s, i);
    }
    Assembled(m', ParentPage(m, t), ParentEntry(m, t));
  }

  /** A page table whose root was freed has no page left. */
  lemma {:induction false} NoRootNoNodes(m: Mem, root: nat, n: nat)
    requires Inv(m) && n < |m.page| && root < |m.owner| && !m.owner[root].Node?
    ensures !(m.owner[n].Node? && m.owner[n].root == root)
    decreases if m.owner[n].Node? then 3 - m.owner[n].d else 0
  {
    KnowPage(m, |m.page|, 0, n);
    hide InvBut, Up, Digit;
    if m.owner[n].Node? && m.owner[n].root == root && m.owner[n].d < 3 {
      NoRootNoNodes(m, root, m.owner[n].up);
    }
  }

  // ---------------------------------------------------------------- nothing is lost

  lemma UpOfScaled(k: nat, fan: nat)
    requires fan > 0
    ensures Up(k * fan, fan) == k
  {
    DivModUnique(k * fan, fan, k, 0);
  }

  /** A page number below node `n`. */
  lemma SomeVpn(m: Mem, n: nat) returns (vpn: nat)
    requires Inv(m) && n < |m.page| && n < |m.owner| && m.owner[n].Node? && m.owner[n].d <= 2 && m.fan > 0
    ensures InRange(vpn, m.fan) && Key(vpn, m.owner[n].d, m.fan) == m.owner[n].key
  {
    var o, x := m.owner[n], |m.page|;
    KnowPage(m, x, 0, n);
    KnowPage(m, x, 0, o.up);
    hide InvBut, Digit;
    if o.d == 2 {
      UpOfScaled(o.key, m.fan);
      UpOfScaled(o.key * m.fan, m.fan);
      vpn := o.key * m.fan * m.fan;
      assert Key(vpn, 1, m.fan) == o.key * m.fan;
    } else if o.d == 1 {
      UpOfScaled(o.key, m.fan);
      vpn := o.key * m.fan;
    } else {
      KnowPage(m, x, 0, m.owner[o.up].up);
      vpn := o.key;
    }
  }

  /** Each physical page is at exactly one place: a page is on the free list exactly when it has no owner,
      every page a table owns is reached from its root, and no page on a path is on the free list. */
  lemma PoolPartition(m: Mem, n: nat)
    requires Inv(m) && n < |m.page|
    ensures Sizes(m) && (n in m.free <==> m.owner[n].Free?)
    ensures m.owner[n].Node? && m.owner[n].d <= 2 ==>
              exists vpn: nat :: InRange(vpn, m.fan) && Path(m, m.owner[n].root, vpn, m.owner[n].d) == n
    ensures forall root: nat, vpn: nat, d: nat ::
              1 <= d <= 3 && IsRoot(m, root) && InRange(vpn, m.fan) && Path(m, root, vpn, d) == n ==>
              n !in m.free && m.owner[n].Node? && m.owner[n].root == root && m.owner[n].d == d
  {
    KnowSizes(m, |m.page|, 0);
    KnowPage(m, |m.page|, 0, n);
    hide InvBut, InRange, Path;
    if m.owner[n].Node? && m.owner[n].d <= 2 {
      var vpn := SomeVpn(m, n);
      OwnerPath(m, n, vpn);
    }
    forall root: nat, vpn: nat, d: nat | 1 <= d <= 3 && IsRoot(m, root) && InRange(vpn, m.fan)
      && Path(m, root, vpn, d) == n
      ensures n !in m.free && m.owner[n].Node? && m.owner[n].root == root && m.owner[n].d == d
    {
      PathOwner(m, root, vpn, d);
    }
  }
}
