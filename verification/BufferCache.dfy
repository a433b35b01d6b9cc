/**
  The buffer cache: a fixed table of buffers threaded on a doubly linked ring in order of recent use.

  Every method is one critical section of the kernel code (under bcache.lock, or under the buffer's
  sleep-lock), so a concurrent run is a sequence of calls of any processes in any order.  A locked
  buffer is owned by the process that locked it.
*/
module BufferCache {
  import opened LogCrash
  import Machine

  /** One `struct buf`; `locked` is its sleep-lock; `prev` and `next` are table indices. */
  datatype Buf = Buf(dev: nat, blockno: nat, refcnt: int, valid: bool, data: Block, locked: bool, prev: nat, next: nat)

  // ---------------------------------------------------------------- the ring

  /** Same buffer but for the links. */
  predicate Relinked(x: Buf, y: Buf) {
    y == x.(prev := y.prev, next := y.next)
  }

  /** Node `k` of the ring whose head is the last table entry: the head at both ends, `order` between. */
  function Node(head: nat, order: seq<nat>, k: nat): nat {
    if 1 <= k <= |order| then order[k - 1] else head
  }

  /** Following `next` from the head visits `order` and returns; `prev` is the way back. */
  ghost predicate Ring(bufs: seq<Buf>, order: seq<nat>) {
    && |bufs| > 0 && Machine.Distinct(order)
    && (forall k :: 0 <= k < |order| ==> order[k] < |bufs| - 1)
    && (forall k :: 0 <= k <= |order| ==> Linked(bufs, order, k))
  }

  /** Nodes `k` and `k + 1` point at each other. */
  ghost predicate Linked(bufs: seq<Buf>, order: seq<nat>, k: nat)
    requires |bufs| > 0 && forall j :: 0 <= j < |order| ==> order[j] < |bufs| - 1
  {
    var head := |bufs| - 1;
    && bufs[Node(head, order, k)].next == Node(head, order, k + 1)
    && bufs[Node(head, order, k + 1)].prev == Node(head, order, k)
  }

  function Remove(order: seq<nat>, k: nat): seq<nat>
    requires k < |order|
  {
    order[..k] + order[k + 1..]
  }

  /** `b->next->prev = b->prev; b->prev->next = b->next` takes `b` out of the ring. */
  function Unlinked(bufs: seq<Buf>, b: nat): (r: seq<Buf>)
    requires b < |bufs| && bufs[b].next < |bufs| && bufs[b].prev < |bufs|
    ensures |r| == |bufs| && forall i :: 0 <= i < |bufs| ==> Relinked(bufs[i], r[i])
  {
    var s := bufs[bufs[b].next := bufs[bufs[b].next].(prev := bufs[b].prev)];
    s[bufs[b].prev := s[bufs[b].prev].(next := bufs[b].next)]
  }

  lemma UnlinkRing(bufs: seq<Buf>, order: seq<nat>, k: nat)
    requires Ring(bufs, order) && k < |order|
    ensures var b := order[k];
            && b < |bufs| && bufs[b].next < |bufs| && bufs[b].prev < |bufs|
            && Ring(Unlinked(bufs, b), Remove(order, k)) && b !in Remove(order, k)
  {
    NeighboursInRange(bufs, order, k);
    var rest := Remove(order, k);
    assert Machine.Distinct(rest) && order[k] !in rest;
    forall j | 0 <= j <= |rest| ensures Linked(Unlinked(bufs, order[k]), rest, j) {
      UnlinkLinked(bufs, order, k, j);
    }
  }

  lemma NeighboursInRange(bufs: seq<Buf>, order: seq<nat>, k: nat)
    requires Ring(bufs, order) && k < |order|
    ensures var b, head := order[k], |bufs| - 1;
            && b < |bufs| && bufs[b].next == Node(head, order, k + 2) < |bufs|
               && bufs[b].prev == Node(head, order, k) < |bufs|
  {
    assert Linked(bufs, order, k) && Linked(bufs, order, k + 1);
  }

  /** The ring without position `k`: later nodes move up by one. */
  lemma RemovedNode(head: nat, order: seq<nat>, k: nat, j: nat)
    requires k < |order| && j <= |order|
    ensures Node(head, Remove(order, k), j) == Node(head, order, if j <= k then j else j + 1)
  {
  }

  lemma RemovedInRange(order: seq<nat>, k: nat, head: nat)
    requires k < |order| && forall i :: 0 <= i < |order| ==> order[i] < head
    ensures forall i :: 0 <= i < |Remove(order, k)| ==> Remove(order, k)[i] < head
    ensures forall i: nat :: Node(head, order, i) <= head
  {
  }

  lemma UnlinkLinked(bufs: seq<Buf>, order: seq<nat>, k: nat, j: nat)
    requires Ring(bufs, order) && k < |order| && j < |order|
    requires bufs[order[k]].next < |bufs| && bufs[order[k]].prev < |bufs|
    ensures forall i :: 0 <= i < |Remove(order, k)| ==> Remove(order, k)[i] < |bufs| - 1
    ensures Linked(Unlinked(bufs, order[k]), Remove(order, k), j)
  {
    hide Ring, Unlinked, Node, Remove, Linked, Machine.Distinct;
    NeighboursInRange(bufs, order, k);
    LinkedAt(bufs, order, if j < k then j else j + 1);
    var head, b := |bufs| - 1, order[k];
    var at, to := if j <= k then j else j + 1, if j < k then j + 1 else j + 2;
    RemovedInRange(order, k, head);
    NodesDiffer(bufs, order, at, k);
    NodesDiffer(bufs, order, to, k + 2);
    UnlinkedAt(bufs, b, Node(head, order, at));
    UnlinkedAt(bufs, b, Node(head, order, to));
    RemovedNode(head, order, k, j);
    RemovedNode(head, order, k, j + 1);
    LinkedFrom(Unlinked(bufs, b), Remove(order, k), j);
  }

  lemma LinkedAt(bufs: seq<Buf>, order: seq<nat>, k: nat)
    requires Ring(bufs, order) && k <= |order|
    ensures |bufs| > 0 && (forall i :: 0 <= i < |order| ==> order[i] < |bufs| - 1)
    ensures Node(|bufs| - 1, order, k) < |bufs| && Node(|bufs| - 1, order, k + 1) < |bufs|
    ensures var head := |bufs| - 1;
            bufs[Node(head, order, k)].next == Node(head, order, k + 1)
              && bufs[Node(head, order, k + 1)].prev == Node(head, order, k)
  {
    assert Linked(bufs, order, k);
  }

  lemma LinkedFrom(bufs: seq<Buf>, order: seq<nat>, k: nat)
    requires |bufs| > 0 && (forall j :: 0 <= j < |order| ==> order[j] < |bufs| - 1)
    requires var head := |bufs| - 1;
             && Node(head, order, k) < |bufs| && Node(head, order, k + 1) < |bufs|
             && bufs[Node(head, order, k)].next == Node(head, order, k + 1)
                && bufs[Node(head, order, k + 1)].prev == Node(head, order, k)
    ensures Linked(bufs, order, k)
  {
  }

  lemma UnlinkedAt(bufs: seq<Buf>, b: nat, x: nat)
    requires b < |bufs| && bufs[b].next < |bufs| && bufs[b].prev < |bufs| && x < |bufs|
    ensures Unlinked(bufs, b)[x].next == if x == bufs[b].prev then bufs[b].next else bufs[x].next
    ensures Unlinked(bufs, b)[x].prev == if x == bufs[b].next then bufs[b].prev else bufs[x].prev
  {
  }

  /** Two ring positions hold the same node only if they are the same position (or both the head). */
  lemma NodesDiffer(bufs: seq<Buf>, order: seq<nat>, i: nat, j: nat)
    requires Ring(bufs, order) && i <= |order| + 1 && j <= |order| + 1
    ensures Node(|bufs| - 1, order, i) == Node(|bufs| - 1, order, j) ==>
              i == j || (i == 0 && j == |order| + 1) || (j == 0 && i == |order| + 1)
  {
  }

  /** Linking `b` in right behind the head. */
  function Pushed(bufs: seq<Buf>, b: nat): (r: seq<Buf>)
    requires |bufs| > 0 && b < |bufs| && bufs[|bufs| - 1].next < |bufs|
    ensures |r| == |bufs| && forall i :: 0 <= i < |bufs| ==> Relinked(bufs[i], r[i])
  {
    var head := |bufs| - 1;
    var s := bufs[b := bufs[b].(next := bufs[head].next, prev := head)];
    var t := s[s[head].next := s[s[head].next].(prev := b)];
    t[head := t[head].(next := b)]
  }

  lemma PushRing(bufs: seq<Buf>, order: seq<nat>, b: nat)
    requires Ring(bufs, order) && b < |bufs| - 1 && b !in order
    ensures bufs[|bufs| - 1].next < |bufs|
    ensures Ring(Pushed(bufs, b), [b] + order)
  {
    var head := |bufs| - 1;
    assert Linked(bufs, order, 0);
    var r, more := Pushed(bufs, b), [b] + order;
    forall j | 0 <= j <= |more| ensures Linked(r, more, j) {
      if j >= 1 {
        assert j >= 2 ==> Node(head, more, j) == Node(head, order, j - 1);
        assert Node(head, more, j + 1) == Node(head, order, j);
        assert Linked(bufs, order, j - 1);
      }
    }
  }

  // ---------------------------------------------------------------- what the cache promises

  /** The cache as a value.  `users[i]` counts bget references to buffer `i` not yet released, `pins[i]`
      counts bpin without bunpin; `order` is the ring from most to least recently used. */
  datatype Snap = Snap(bufs: seq<Buf>, disk: map<nat, Disk>, order: seq<nat>, users: seq<nat>, pins: seq<nat>)

  ghost predicate OnDisk(c: Snap, dev: nat, b: nat) {
    dev != 0 && dev in c.disk && b < |c.disk[dev]|
  }

  /** Reference counts are exact; an unlocked buffer that differs from the disk is pinned. */
  ghost predicate BufOk(c: Snap, i: nat)
    requires i < |c.bufs| && i < |c.users| && i < |c.pins|
  {
    var x := c.bufs[i];
    && x.refcnt == c.users[i] + c.pins[i]
    && (x.locked ==> c.users[i] > 0)
    && (x.dev != 0 ==> OnDisk(c, x.dev, x.blockno))
    && (x.valid ==> x.dev != 0)
    && (x.valid && !x.locked && c.pins[i] == 0 ==> x.data == c.disk[x.dev][x.blockno])
  }

  ghost predicate SameBlock(x: Buf, y: Buf) {
    x.dev != 0 && x.dev == y.dev && x.blockno == y.blockno
  }

  ghost predicate Unique(c: Snap) {
    forall i, j :: 0 <= i < j < |c.bufs| - 1 ==> !SameBlock(c.bufs[i], c.bufs[j])
  }

  ghost predicate Ok(c: Snap) {
    && |c.bufs| > 0 && |c.order| == |c.users| == |c.pins| == |c.bufs| - 1
    && Ring(c.bufs, c.order)
    && (forall i :: 0 <= i < |c.bufs| - 1 ==> BufOk(c, i))
    && Unique(c)
  }

  ghost predicate Holds(c: Snap, i: nat, dev: nat, b: nat) {
    i < |c.bufs| - 1 && c.bufs[i].valid && c.bufs[i].dev == dev && c.bufs[i].blockno == b
  }

  ghost function Cached(c: Snap, dev: nat, b: nat): (i: nat)
    requires exists i: nat :: Holds(c, i, dev, b)
    ensures Holds(c, i, dev, b)
  {
    var i: nat :| Holds(c, i, dev, b);
    i
  }

  /** The block's current contents: the cached copy if there is one, else the disk's. */
  ghost function View(c: Snap, dev: nat, b: nat): Block
    requires OnDisk(c, dev, b)
  {
    if exists i: nat :: Holds(c, i, dev, b) then c.bufs[Cached(c, dev, b)].data else c.disk[dev][b]
  }

  lemma HoldsOnce(c: Snap, i: nat, j: nat, dev: nat, b: nat)
    requires Ok(c) && OnDisk(c, dev, b) && Holds(c, i, dev, b) && Holds(c, j, dev, b)
    ensures i == j
  {
    assert SameBlock(c.bufs[i], c.bufs[j]) && SameBlock(c.bufs[j], c.bufs[i]);
  }

  lemma ViewIs(c: Snap, i: nat, dev: nat, b: nat)
    requires Ok(c) && OnDisk(c, dev, b) && Holds(c, i, dev, b)
    ensures View(c, dev, b) == c.bufs[i].data
  {
    HoldsOnce(c, i, Cached(c, dev, b), dev, b);
  }

  ghost predicate SameViews(c: Snap, d: Snap) {
    c.disk == d.disk && forall dev: nat, b: nat :: OnDisk(c, dev, b) ==> View(c, dev, b) == View(d, dev, b)
  }

  /** `d` is `c` with buffer `i` and its counts changed, links kept. */
  ghost predicate Touches(c: Snap, d: Snap, i: nat) {
    && i < |c.bufs| - 1 && |d.bufs| == |c.bufs|
    && |c.users| == |c.pins| == |d.users| == |d.pins| == |c.bufs| - 1
    && d == c.(bufs := c.bufs[i := d.bufs[i]], users := c.users[i := d.users[i]], pins := c.pins[i := d.pins[i]])
    && d.bufs[i].prev == c.bufs[i].prev && d.bufs[i].next == c.bufs[i].next
  }

  lemma RingFrame(bufs: seq<Buf>, bufs': seq<Buf>, order: seq<nat>)
    requires Ring(bufs, order) && |bufs'| == |bufs|
    requires forall i :: 0 <= i < |bufs| ==> bufs'[i].prev == bufs[i].prev && bufs'[i].next == bufs[i].next
    ensures Ring(bufs', order)
  {
    forall k | 0 <= k <= |order| ensures Linked(bufs', order, k) {
      assert Linked(bufs, order, k);
    }
  }

  /** A change of one buffer that keeps its block keeps the invariant if the buffer itself stays sound. */
  lemma TouchOk(c: Snap, d: Snap, i: nat)
    requires Ok(c) && Touches(c, d, i) && BufOk(d, i)
    requires d.bufs[i].dev == c.bufs[i].dev && d.bufs[i].blockno == c.bufs[i].blockno
    ensures Ok(d)
  {
    RingFrame(c.bufs, d.bufs, c.order);
    forall j | 0 <= j < |d.bufs| - 1 ensures BufOk(d, j) {
      assert BufOk(c, j);
    }
    forall j, k | 0 <= j < k < |d.bufs| - 1 ensures !SameBlock(d.bufs[j], d.bufs[k]) {
      assert !SameBlock(c.bufs[j], c.bufs[k]);
    }
  }

  /** If moreover data and validity stay, no block's contents change. */
  lemma TouchViews(c: Snap, d: Snap, i: nat)
    requires Ok(c) && Ok(d) && Touches(c, d, i)
    requires d.bufs[i].dev == c.bufs[i].dev && d.bufs[i].blockno == c.bufs[i].blockno
    requires d.bufs[i].valid == c.bufs[i].valid && d.bufs[i].data == c.bufs[i].data
    ensures SameViews(c, d)
  {
    forall dev: nat, b: nat | OnDisk(c, dev, b) ensures View(c, dev, b) == View(d, dev, b) {
      OneView(c, d, dev, b);
    }
  }

  lemma OneView(c: Snap, d: Snap, dev: nat, b: nat)
    requires Ok(c) && Ok(d) && c.disk == d.disk && OnDisk(c, dev, b)
    requires |c.bufs| == |d.bufs|
    requires forall j: nat :: Holds(c, j, dev, b) <==> Holds(d, j, dev, b)
    requires forall j: nat :: Holds(c, j, dev, b) ==> c.bufs[j].data == d.bufs[j].data
    ensures View(c, dev, b) == View(d, dev, b)
  {
    if j: nat :| Holds(c, j, dev, b) {
      ViewIs(c, j, dev, b);
      ViewIs(d, j, dev, b);
    }
  }

  /** Recycling a buffer with no references forgets only a copy equal to the disk. */
  lemma RecycleOk(c: Snap, d: Snap, i: nat, dev: nat, b: nat)
    requires Ok(c) && Touches(c, d, i) && OnDisk(c, dev, b) && c.bufs[i].refcnt == 0
    requires forall j :: 0 <= j < |c.bufs| - 1 ==> !(c.bufs[j].dev == dev && c.bufs[j].blockno == b)
    requires d.bufs[i] == c.bufs[i].(dev := dev, blockno := b, valid := false, refcnt := 1)
    requires d.users[i] == 1 && d.pins[i] == c.pins[i]
    ensures Ok(d) && SameViews(c, d)
  {
    assert BufOk(c, i);
    RingFrame(c.bufs, d.bufs, c.order);
    forall j | 0 <= j < |d.bufs| - 1 ensures BufOk(d, j) {
      assert BufOk(c, j);
    }
    forall j, k | 0 <= j < k < |d.bufs| - 1 ensures !SameBlock(d.bufs[j], d.bufs[k]) {
      assert !SameBlock(c.bufs[j], c.bufs[k]);
    }
    forall e: nat, x: nat | OnDisk(c, e, x) ensures View(c, e, x) == View(d, e, x) {
      RecycleView(c, d, i, e, x);
    }
  }

  lemma RecycleView(c: Snap, d: Snap, i: nat, dev: nat, b: nat)
    requires Ok(c) && Ok(d) && Touches(c, d, i) && OnDisk(c, dev, b) && c.bufs[i].refcnt == 0 && !d.bufs[i].valid
    ensures View(c, dev, b) == View(d, dev, b)
  {
    assert BufOk(c, i);
    if Holds(c, i, dev, b) {
      ViewIs(c, i, dev, b);
      forall j: nat ensures !Holds(d, j, dev, b) {
        if j != i && Holds(c, j, dev, b) {
          HoldsOnce(c, i, j, dev, b);
        }
      }
    } else {
      OneView(c, d, dev, b);
    }
  }

  /** Reading a block into its locked buffer shows what the disk already showed. */
  lemma FillOk(c: Snap, d: Snap, i: nat)
    requires Ok(c) && Touches(c, d, i) && c.bufs[i].locked && !c.bufs[i].valid && c.bufs[i].dev != 0
    requires OnDisk(c, c.bufs[i].dev, c.bufs[i].blockno)
    requires d.bufs[i] == c.bufs[i].(valid := true, data := c.disk[c.bufs[i].dev][c.bufs[i].blockno])
    requires d.users[i] == c.users[i] && d.pins[i] == c.pins[i]
    ensures Ok(d) && SameViews(c, d)
  {
    assert BufOk(c, i);
    TouchOk(c, d, i);
    forall dev: nat, b: nat | OnDisk(c, dev, b) ensures View(c, dev, b) == View(d, dev, b) {
      if dev == c.bufs[i].dev && b == c.bufs[i].blockno {
        ViewIs(d, i, dev, b);
        forall j: nat ensures !Holds(c, j, dev, b) {
          if j != i && Holds(d, j, dev, b) { HoldsOnce(d, i, j, dev, b); }
        }
      } else {
        OneView(c, d, dev, b);
      }
    }
  }

  /** The cache with block `b` of `dev` showing `data`. */
  ghost predicate ViewsSet(c: Snap, d: Snap, dev: nat, b: nat, data: Block)
    requires OnDisk(c, dev, b)
  {
    && (forall e: nat, x: nat :: OnDisk(c, e, x) <==> OnDisk(d, e, x))
    && View(d, dev, b) == data
    && forall e: nat, x: nat :: OnDisk(c, e, x) && (e, x) != (dev, b) ==> View(d, e, x) == View(c, e, x)
  }

  lemma ModifyOk(c: Snap, d: Snap, i: nat, data: Block)
    requires Ok(c) && Touches(c, d, i) && c.bufs[i].locked && c.bufs[i].valid
    requires OnDisk(c, c.bufs[i].dev, c.bufs[i].blockno)
    requires d.bufs[i] == c.bufs[i].(data := data) && d.users[i] == c.users[i] && d.pins[i] == c.pins[i]
    ensures Ok(d) && ViewsSet(c, d, c.bufs[i].dev, c.bufs[i].blockno, data)
  {
    assert BufOk(c, i);
    TouchOk(c, d, i);
    var dev, b := c.bufs[i].dev, c.bufs[i].blockno;
    ViewIs(d, i, dev, b);
    forall e: nat, x: nat | OnDisk(c, e, x) && (e, x) != (dev, b) ensures View(d, e, x) == View(c, e, x) {
      OneView(c, d, e, x);
    }
  }

  /** bwrite changes the disk, and what any block shows not at all. */
  lemma WriteOk(c: Snap, d: Snap, i: nat)
    requires Ok(c) && i < |c.bufs| - 1 && c.bufs[i].locked && c.bufs[i].valid
    requires OnDisk(c, c.bufs[i].dev, c.bufs[i].blockno)
    requires var dev, b := c.bufs[i].dev, c.bufs[i].blockno;
             d == c.(disk := c.disk[dev := c.disk[dev][b := c.bufs[i].data]])
    ensures Ok(d)
    ensures forall e: nat, x: nat :: OnDisk(c, e, x) <==> OnDisk(d, e, x)
    ensures forall e: nat, x: nat :: OnDisk(c, e, x) ==> View(d, e, x) == View(c, e, x)
  {
    var dev, b := c.bufs[i].dev, c.bufs[i].blockno;
    forall j | 0 <= j < |d.bufs| - 1 ensures BufOk(d, j) {
      assert BufOk(c, j);
      if j != i {
        assert !SameBlock(c.bufs[if i < j then i else j], c.bufs[if i < j then j else i]);
      }
    }
    forall e: nat, x: nat | OnDisk(c, e, x) ensures View(d, e, x) == View(c, e, x) {
      if (e, x) == (dev, b) {
        ViewIs(c, i, dev, b);
        ViewIs(d, i, dev, b);
      } else {
        WriteElsewhere(c, d, e, x);
      }
    }
  }

  lemma WriteElsewhere(c: Snap, d: Snap, dev: nat, b: nat)
    requires Ok(c) && Ok(d) && OnDisk(c, dev, b) && OnDisk(d, dev, b) && d == c.(disk := d.disk)
    requires d.disk[dev][b] == c.disk[dev][b]
    ensures View(d, dev, b) == View(c, dev, b)
  {
    if j: nat :| Holds(c, j, dev, b) {
      ViewIs(c, j, dev, b);
      assert Holds(d, j, dev, b);
      ViewIs(d, j, dev, b);
    } else {
      forall j: nat ensures !Holds(d, j, dev, b) { assert !Holds(c, j, dev, b); }
    }
  }

  lemma RelinkOk(c: Snap, d: Snap)
    requires Ok(c) && |d.bufs| == |c.bufs| && |d.order| == |c.order| && Ring(d.bufs, d.order)
    requires d == c.(bufs := d.bufs, order := d.order)
    requires forall i :: 0 <= i < |c.bufs| ==> Relinked(c.bufs[i], d.bufs[i])
    ensures Ok(d) && SameViews(c, d)
  {
    forall j | 0 <= j < |d.bufs| - 1 ensures BufOk(d, j) {
      assert BufOk(c, j) && Relinked(c.bufs[j], d.bufs[j]);
    }
    forall j, l | 0 <= j < l < |d.bufs| - 1 ensures !SameBlock(d.bufs[j], d.bufs[l]) {
      assert !SameBlock(c.bufs[j], c.bufs[l]) && Relinked(c.bufs[j], d.bufs[j]) && Relinked(c.bufs[l], d.bufs[l]);
    }
    forall e: nat, x: nat | OnDisk(c, e, x) ensures View(c, e, x) == View(d, e, x) {
      OneView(c, d, e, x);
    }
  }

  /** Dropping the last reference moves the buffer to the front of the ring. */
  lemma FrontOk(c: Snap, d: Snap, k: nat)
    requires Ok(c) && k < |c.order| && Movable(c.bufs, c.order[k])
    requires d == c.(bufs := Front(c.bufs, c.order[k]), order := [c.order[k]] + Remove(c.order, k))
    ensures Ok(d) && SameViews(c, d)
  {
    UnlinkRing(c.bufs, c.order, k);
    PushRing(Unlinked(c.bufs, c.order[k]), Remove(c.order, k), c.order[k]);
    hide Ring, View, BufOk, SameViews, Unique, Front;
    RelinkOk(c, d);
  }

  ghost predicate Movable(bufs: seq<Buf>, b: nat) {
    && |bufs| > 0 && b < |bufs| && bufs[b].next < |bufs| && bufs[b].prev < |bufs|
    && Unlinked(bufs, b)[|bufs| - 1].next < |bufs|
  }

  lemma CanMove(bufs: seq<Buf>, order: seq<nat>, k: nat)
    requires Ring(bufs, order) && k < |order|
    ensures Movable(bufs, order[k])
  {
    UnlinkRing(bufs, order, k);
    PushRing(Unlinked(bufs, order[k]), Remove(order, k), order[k]);
  }

  ghost function Front(bufs: seq<Buf>, b: nat): (r: seq<Buf>)
    requires Movable(bufs, b)
    ensures |r| == |bufs| && forall i :: 0 <= i < |bufs| ==> Relinked(bufs[i], r[i])
  {
    var s := Unlinked(bufs, b);
    var t := Pushed(s, b);
    assert forall i :: 0 <= i < |bufs| ==> Relinked(bufs[i], s[i]) && Relinked(s[i], t[i]);
    t
  }

  /** From `order` to `order'` buffer `b` was moved to the front, the others keeping their places. */
  ghost predicate MovedFirst(order: seq<nat>, order': seq<nat>, b: nat) {
    exists k: nat :: k < |order| && order[k] == b && order' == [b] + Remove(order, k)
  }

  /** `b` is unreferenced, and all buffers used less recently are referenced. */
  ghost predicate LeastRecent(c: Snap, b: nat) {
    exists k: nat :: k < |c.order| && c.order[k] == b && Victim(c, k)
  }

  ghost predicate Victim(c: Snap, k: nat) {
    && k < |c.order| && c.order[k] < |c.bufs| && c.bufs[c.order[k]].refcnt == 0
    && forall j :: k < j < |c.order| && c.order[j] < |c.bufs| ==> c.bufs[c.order[j]].refcnt != 0
  }

  // ---------------------------------------------------------------- the code

  class Cache {
    const nbuf: nat
    const buf: array<Buf>
    var disk: map<nat, Disk>
    ghost var order: seq<nat>
    ghost var users: seq<nat>
    ghost var pins: seq<nat>
    /** Every block write that reached the disk, oldest first. */
    ghost var trace: seq<(nat, Write)>

    ghost function Now(): Snap
      reads this, buf
    {
      Snap(buf[..], disk, order, users, pins)
    }

    ghost predicate Valid()
      reads this, buf
    {
      buf.Length == nbuf + 1 && Ok(Now())
    }

    /** binit: all buffers unused and linked, the last initialised first in the ring. */
    constructor (n: nat, devices: map<nat, Disk>)
      ensures Valid() && nbuf == n && disk == devices && trace == [] && fresh(buf)
      ensures forall i :: 0 <= i < n ==> users[i] == 0 && pins[i] == 0 && !buf[i].valid
      ensures order == seq(n, k requires 0 <= k < n => n - 1 - k)
    {
      nbuf := n;
      disk := devices;
      buf := new Buf[n + 1](_ => Buf(0, 0, 0, false, [], false, n, n));
      order, trace := [], [];
      users := seq(n, _ => 0);
      pins := seq(n, _ => 0);
      new;
      assert Linked(buf[..], order, 0);
      for b := 0 to n
        invariant |order| == b && (forall k :: 0 <= k < b ==> order[k] == b - 1 - k) && Ring(buf[..], order)
        invariant forall i :: 0 <= i < n ==> Relinked(Buf(0, 0, 0, false, [], false, n, n), buf[i])
        modifies this`order, buf
      {
        PushRing(buf[..], order, b);
        PushInPlace(b);
        order := [b] + order;
      }
    }

    /** b->next = head.next; b->prev = head; head.next->prev = b; head.next = b. */
    method PushInPlace(b: nat)
      requires buf.Length == nbuf + 1 && b < nbuf && buf[nbuf].next <= nbuf
      modifies buf
      ensures buf[..] == Pushed(old(buf[..]), b)
    {
      buf[b] := buf[b].(next := buf[nbuf].next, prev := nbuf);
      buf[buf[nbuf].next] := buf[buf[nbuf].next].(prev := b);
      buf[nbuf] := buf[nbuf].(next := b);
    }

    /** bget up to the release of bcache.lock: `ok` is false exactly where the kernel panics. */
    method Bget(dev: nat, blockno: nat) returns (b: nat, ok: bool)
      requires Valid() && OnDisk(Now(), dev, blockno)
      modifies this`users, buf
      ensures Valid() && SameViews(old(Now()), Now()) && order == old(order) && pins == old(pins)
      ensures !ok ==> Now() == old(Now()) && forall i :: 0 <= i < nbuf ==>
                        buf[i].refcnt != 0 && !(buf[i].dev == dev && buf[i].blockno == blockno)
      ensures ok ==> && b < nbuf && buf[b].dev == dev && buf[b].blockno == blockno
                     && buf[b].locked == old(buf[b]).locked
                     && users == old(users)[b := old(users)[b] + 1]
                     && (forall i :: 0 <= i < nbuf && i != b ==> buf[i] == old(buf[i]))
                     && ((old(buf[b]).dev == dev && old(buf[b]).blockno == blockno) || LeastRecent(old(Now()), b))
                     && (old(buf[b]).refcnt > 0 ==> SameBlock(old(buf[b]), buf[b]) && buf[b].valid == old(buf[b]).valid
                                                    && buf[b].data == old(buf[b]).data)
    {
      hide Ring, View, SameViews, Unique;
      ghost var c := Now();
      b, ok := FindCached(dev, blockno);
      if ok {
        assert BufOk(c, b);
        buf[b] := buf[b].(refcnt := buf[b].refcnt + 1);
        users := users[b := users[b] + 1];
        TouchOk(c, Now(), b);
        TouchViews(c, Now(), b);
        return;
      }
      b, ok := FindUnused();
      if ok {
        assert BufOk(c, b);
        buf[b] := buf[b].(dev := dev, blockno := blockno, valid := false, refcnt := 1);
        users := users[b := 1];
        RecycleOk(c, Now(), b, dev, blockno);
      } else {
        SameViewsRefl(c);
      }
    }

    /** First loop of bget: along `next` from the most recently used. */
    method FindCached(dev: nat, blockno: nat) returns (b: nat, found: bool)
      requires Valid()
      ensures found ==> b < nbuf && buf[b].dev == dev && buf[b].blockno == blockno
      ensures !found ==> forall i :: 0 <= i < nbuf ==> !(buf[i].dev == dev && buf[i].blockno == blockno)
    {
      b := buf[nbuf].next;
      ghost var k := 0;
      assert Linked(buf[..], order, 0);
      while b != nbuf
        invariant 0 <= k <= |order| && b == Node(nbuf, order, k + 1)
        invariant forall j :: 0 <= j < k ==> !(buf[order[j]].dev == dev && buf[order[j]].blockno == blockno)
        decreases |order| - k
      {
        if buf[b].dev == dev && buf[b].blockno == blockno {
          return b, true;
        }
        assert Linked(buf[..], order, k + 1);
        b := buf[b].next;
        k := k + 1;
      }
      found := false;
      EveryBuffer(order, nbuf);
      forall i | 0 <= i < nbuf ensures !(buf[i].dev == dev && buf[i].blockno == blockno) {
        assert i in order;
      }
    }

    /** Second loop of bget: along `prev` from the least recently used; never picks a referenced buffer. */
    method FindUnused() returns (b: nat, found: bool)
      requires Valid()
      ensures found ==> b < nbuf && buf[b].refcnt == 0
      ensures found ==> LeastRecent(Now(), b)
      ensures !found ==> forall i :: 0 <= i < nbuf ==> buf[i].refcnt != 0
    {
      b := buf[nbuf].prev;
      ghost var k := |order|;
      assert Linked(buf[..], order, |order|);
      while b != nbuf
        invariant 0 <= k <= |order| && b == Node(nbuf, order, k)
        invariant forall j :: k <= j < |order| ==> buf[order[j]].refcnt != 0
        decreases k
      {
        if buf[b].refcnt == 0 {
          assert Victim(Now(), k - 1);
          return b, true;
        }
        assert Linked(buf[..], order, k - 1);
        b := buf[b].prev;
        k := k - 1;
      }
      found := false;
      EveryBuffer(order, nbuf);
      forall i | 0 <= i < nbuf ensures buf[i].refcnt != 0 {
        assert i in order;
      }
    }

    /** acquiresleep, once the sleep-lock is free. */
    method Lock(b: nat)
      requires Valid() && b < nbuf && users[b] > 0 && !buf[b].locked
      modifies buf
      ensures Valid() && SameViews(old(Now()), Now())
      ensures buf[..] == old(buf[..])[b := old(buf[b]).(locked := true)]
    {
      hide Ring, View, SameViews, Unique;
      ghost var c := Now();
      assert BufOk(c, b);
      buf[b] := buf[b].(locked := true);
      TouchOk(c, Now(), b);
      TouchViews(c, Now(), b);
    }

    /** The rest of bread: read the block if the buffer does not hold it yet. */
    method Fill(b: nat)
      requires Valid() && b < nbuf && buf[b].locked && buf[b].dev != 0
      modifies buf
      ensures Valid() && SameViews(old(Now()), Now())
      ensures OnDisk(Now(), buf[b].dev, buf[b].blockno)
      ensures buf[..] == old(buf[..])[b := old(buf[b]).(valid := true, data := View(Now(), buf[b].dev, buf[b].blockno))]
    {
      ghost var c := Now();
      assert BufOk(c, b);
      if !buf[b].valid {
        buf[b] := buf[b].(data := disk[buf[b].dev][buf[b].blockno], valid := true);
        FillOk(c, Now(), b);
      } else {
        SameViewsRefl(c);
      }
      ViewIs(Now(), b, buf[b].dev, buf[b].blockno);
    }

    /** The holder of the buffer changes its bytes. */
    method Modify(b: nat, data: Block)
      requires Valid() && b < nbuf && buf[b].locked && buf[b].valid
      modifies buf
      ensures Valid() && buf[..] == old(buf[..])[b := old(buf[b]).(data := data)]
      ensures OnDisk(old(Now()), buf[b].dev, buf[b].blockno)
      ensures ViewsSet(old(Now()), Now(), buf[b].dev, buf[b].blockno, data)
    {
      hide Ring, View, SameViews, Unique, ViewsSet;
      ghost var c := Now();
      assert BufOk(c, b);
      buf[b] := buf[b].(data := data);
      ModifyOk(c, Now(), b, data);
    }

    /** bwrite: one atomic block write. */
    method Bwrite(b: nat)
      requires Valid() && b < nbuf && buf[b].locked && buf[b].valid
      modifies this`disk, this`trace
      ensures Valid() && OnDisk(old(Now()), buf[b].dev, buf[b].blockno)
      ensures disk == old(disk)[buf[b].dev := old(disk)[buf[b].dev][buf[b].blockno := buf[b].data]]
      ensures trace == old(trace) + [(buf[b].dev, Write(buf[b].blockno, buf[b].data))]
      ensures forall e: nat, x: nat :: OnDisk(old(Now()), e, x) <==> OnDisk(Now(), e, x)
      ensures forall e: nat, x: nat :: OnDisk(old(Now()), e, x) ==> View(Now(), e, x) == View(old(Now()), e, x)
    {
      hide Ring, View, Unique;
      ghost var c := Now();
      assert BufOk(c, b);
      disk := disk[buf[b].dev := disk[buf[b].dev][buf[b].blockno := buf[b].data]];
      trace := trace + [(buf[b].dev, Write(buf[b].blockno, buf[b].data))];
      WriteOk(c, Now(), b);
    }

    /** brelse, first half: give up the sleep-lock.  The holder has written or pinned what it changed. */
    method Unlock(b: nat)
      requires Valid() && b < nbuf && buf[b].locked
      requires buf[b].valid && pins[b] == 0 ==>
                 OnDisk(Now(), buf[b].dev, buf[b].blockno) && buf[b].data == disk[buf[b].dev][buf[b].blockno]
      modifies buf
      ensures Valid() && SameViews(old(Now()), Now())
      ensures buf[..] == old(buf[..])[b := old(buf[b]).(locked := false)]
    {
      hide Ring, View, SameViews, Unique;
      ghost var c := Now();
      assert BufOk(c, b);
      buf[b] := buf[b].(locked := false);
      TouchOk(c, Now(), b);
      TouchViews(c, Now(), b);
    }

    /** brelse, second half: drop the reference; the last one moves the buffer to the front. */
    method Drop(b: nat)
      requires Valid() && b < nbuf && users[b] > if buf[b].locked then 1 else 0
      modifies this`users, this`order, buf
      ensures Valid() && SameViews(old(Now()), Now())
      ensures users == old(users)[b := old(users)[b] - 1]
      ensures forall i :: 0 <= i < nbuf ==>
                Relinked(if i == b then old(buf[b]).(refcnt := old(buf[b]).refcnt - 1) else old(buf[i]), buf[i])
      ensures if buf[b].refcnt == 0 then MovedFirst(old(order), order, b) else order == old(order)
    {
      hide Ring, View, SameViews, Unique;
      ghost var c := Now();
      assert BufOk(c, b);
      buf[b] := buf[b].(refcnt := buf[b].refcnt - 1);
      users := users[b := users[b] - 1];
      ghost var d := Now();
      TouchOk(c, d, b);
      TouchViews(c, d, b);
      if buf[b].refcnt == 0 {
        MoveToFront(b);
        SameViewsTrans(c, d, Now());
      }
    }

    /** Unlink and relink at the head. */
    method MoveToFront(b: nat)
      requires Valid() && b < nbuf
      modifies this`order, buf
      ensures Valid() && SameViews(old(Now()), Now()) && MovedFirst(old(order), order, b)
      ensures forall i :: 0 <= i < nbuf ==> Relinked(old(buf[i]), buf[i])
    {
      ghost var c := Now();
      EveryBuffer(order, nbuf);
      assert b in order;
      ghost var k :| 0 <= k < |order| && order[k] == b;
      CanMove(c.bufs, order, k);
      hide Ring, View, SameViews, Unique, BufOk;
      buf[buf[b].next] := buf[buf[b].next].(prev := buf[b].prev);
      buf[buf[b].prev] := buf[buf[b].prev].(next := buf[b].next);
      assert buf[..] == Unlinked(c.bufs, b);
      PushInPlace(b);
      order := [b] + Remove(order, k);
      FrontOk(c, Now(), k);
    }

    method Bpin(b: nat)
      requires Valid() && b < nbuf
      modifies this`pins, buf
      ensures Valid() && SameViews(old(Now()), Now())
      ensures pins == old(pins)[b := old(pins)[b] + 1]
      ensures buf[..] == old(buf[..])[b := old(buf[b]).(refcnt := old(buf[b]).refcnt + 1)]
    {
      hide Ring, View, SameViews, Unique;
      ghost var c := Now();
      assert BufOk(c, b);
      buf[b] := buf[b].(refcnt := buf[b].refcnt + 1);
      pins := pins[b := pins[b] + 1];
      TouchOk(c, Now(), b);
      TouchViews(c, Now(), b);
    }

    /** bunpin of a buffer its caller still holds locked. */
    method Bunpin(b: nat)
      requires Valid() && b < nbuf && pins[b] > 0 && buf[b].locked
      modifies this`pins, buf
      ensures Valid() && SameViews(old(Now()), Now())
      ensures pins == old(pins)[b := old(pins)[b] - 1]
      ensures buf[..] == old(buf[..])[b := old(buf[b]).(refcnt := old(buf[b]).refcnt - 1)]
    {
      hide Ring, View, SameViews, Unique;
      ghost var c := Now();
      assert BufOk(c, b);
      buf[b] := buf[b].(refcnt := buf[b].refcnt - 1);
      pins := pins[b := pins[b] - 1];
      TouchOk(c, Now(), b);
      TouchViews(c, Now(), b);
    }

    /** bread: the block's current contents in a locked buffer.  It panics exactly when every buffer is referenced
        and none is the block's, and goes to sleep, holding a reference, exactly when somebody has the block
        locked. */
    method Bread(dev: nat, blockno: nat) returns (b: nat, r: BreadResult)
      requires Valid() && OnDisk(Now(), dev, blockno)
      modifies this`users, buf
      ensures Valid() && SameViews(old(Now()), Now()) && order == old(order) && pins == old(pins)
      ensures r.NoBuffers? <==> forall i :: 0 <= i < nbuf ==>
                old(buf[i]).refcnt != 0 && !(old(buf[i]).dev == dev && old(buf[i]).blockno == blockno)
      ensures r.NoBuffers? ==> Now() == old(Now())
      ensures r.Waits? <==> exists i ::
                0 <= i < nbuf && old(buf[i]).dev == dev && old(buf[i]).blockno == blockno && old(buf[i]).locked
      ensures !r.NoBuffers? ==>
        && b < nbuf && users == old(users)[b := old(users)[b] + 1] && buf[b].dev == dev && buf[b].blockno == blockno
           && buf[b].locked
        && (forall i :: 0 <= i < nbuf && i != b ==> buf[i] == old(buf[i]))
        && (old(buf[b]).refcnt > 0 ==> old(buf[b]).dev == dev && old(buf[b]).blockno == blockno)
        && ((old(buf[b]).dev == dev && old(buf[b]).blockno == blockno) || LeastRecent(old(Now()), b))
      ensures r.Got? ==> buf[b].valid && buf[b].data == View(old(Now()), dev, blockno) && Keeps(old(Now()), Now())
    {
      hide Ring, View, SameViews;
      ghost var c := Now();
      var ok;
      b, ok := Bget(dev, blockno);
      if !ok {
        return b, NoBuffers;
      }
      ghost var d := Now();
      OneBuffer(c, d, b, dev, blockno);
      hide Unique;
      if buf[b].locked {
        return b, Waits;
      }
      Lock(b);
      ghost var e := Now();
      SameViewsTrans(c, d, e);
      Fill(b);
      SameViewsTrans(c, e, Now());
      SameViewAt(c, Now(), dev, blockno);
      forall i | 0 <= i < nbuf && pins[i] > 0 ensures KeepsOne(c, Now(), i) {
        assert BufOk(c, i);
      }
      return b, Got;
    }

    /** bread where a buffer can be had and the block is not locked. */
    method BreadNow(dev: nat, blockno: nat) returns (b: nat)
      requires Valid() && OnDisk(Now(), dev, blockno)
      requires exists i :: 0 <= i < nbuf && (buf[i].refcnt == 0 || (buf[i].dev == dev && buf[i].blockno == blockno))
      requires forall i :: 0 <= i < nbuf && buf[i].dev == dev && buf[i].blockno == blockno ==> !buf[i].locked
      modifies this`users, buf
      ensures Valid() && SameViews(old(Now()), Now()) && order == old(order) && pins == old(pins)
      ensures b < nbuf && users == old(users)[b := old(users)[b] + 1]
      ensures buf[b].dev == dev && buf[b].blockno == blockno && buf[b].locked && buf[b].valid
      ensures buf[b].data == View(old(Now()), dev, blockno)
      ensures forall i :: 0 <= i < nbuf && i != b ==> buf[i] == old(buf[i])
      ensures old(buf[b]).refcnt > 0 ==> old(buf[b]).dev == dev && old(buf[b]).blockno == blockno
      ensures Keeps(old(Now()), Now())
    {
      hide View, SameViews, Ok, Keeps, OnDisk;
      var r;
      b, r := Bread(dev, blockno);
    }

    /** brelse, run without interruption. */
    method Brelse(b: nat)
      requires Valid() && b < nbuf && buf[b].locked
      requires buf[b].valid && pins[b] == 0 ==>
                 OnDisk(Now(), buf[b].dev, buf[b].blockno) && buf[b].data == disk[buf[b].dev][buf[b].blockno]
      modifies this`users, this`order, buf
      ensures Valid() && SameViews(old(Now()), Now())
      ensures old(users)[b] > 0 && users == old(users)[b := old(users)[b] - 1]
      ensures forall i :: 0 <= i < nbuf && i != b ==> Relinked(old(buf[i]), buf[i])
      ensures !buf[b].locked && Keeps(old(Now()), Now())
      ensures if old(buf[b]).refcnt == 1 then MovedFirst(old(order), order, b) else order == old(order)
    {
      hide Ring, View, SameViews, Unique, MovedFirst;
      ghost var c := Now();
      assert BufOk(c, b);
      Unlock(b);
      ghost var d := Now();
      Drop(b);
      SameViewsTrans(c, d, Now());
    }
  }

  /** Pinned buffers keep their block and stay valid. */
  ghost predicate KeepsOne(c: Snap, d: Snap, i: nat) {
    && i < |c.bufs| && i < |d.bufs|
    && d.bufs[i].dev == c.bufs[i].dev && d.bufs[i].blockno == c.bufs[i].blockno
    && (c.bufs[i].valid ==> d.bufs[i].valid)
  }

  ghost predicate Keeps(c: Snap, d: Snap) {
    c.pins == d.pins && forall i :: 0 <= i < |c.pins| && c.pins[i] > 0 ==> KeepsOne(c, d, i)
  }

  datatype BreadResult = Got | Waits | NoBuffers

  /** After bget, the block's buffer is locked exactly if it was before. */
  lemma OneBuffer(c: Snap, d: Snap, b: nat, dev: nat, blockno: nat)
    requires Ok(c) && Ok(d) && |c.bufs| == |d.bufs| && b < |c.bufs| - 1 && dev != 0
    requires d.bufs[b].dev == dev && d.bufs[b].blockno == blockno && d.bufs[b].locked == c.bufs[b].locked
    requires forall i :: 0 <= i < |c.bufs| - 1 && i != b ==> d.bufs[i] == c.bufs[i]
    requires c.bufs[b].refcnt > 0 ==> c.bufs[b].dev == dev && c.bufs[b].blockno == blockno
    ensures d.bufs[b].locked <==> exists i ::
              0 <= i < |c.bufs| - 1 && c.bufs[i].dev == dev && c.bufs[i].blockno == blockno && c.bufs[i].locked
    ensures exists i ::
              0 <= i < |c.bufs| - 1 && (c.bufs[i].refcnt == 0 || (c.bufs[i].dev == dev && c.bufs[i].blockno == blockno))
  {
    hide Ring;
    assert BufOk(c, b);
    forall i | 0 <= i < |c.bufs| - 1 && i != b ensures !(c.bufs[i].dev == dev && c.bufs[i].blockno == blockno) {
      assert !SameBlock(d.bufs[if i < b then i else b], d.bufs[if i < b then b else i]);
    }
  }

  lemma SameViewAt(c: Snap, d: Snap, dev: nat, b: nat)
    requires SameViews(c, d) && OnDisk(c, dev, b)
    ensures OnDisk(d, dev, b) && View(c, dev, b) == View(d, dev, b)
  {
  }

  lemma SameViewsTrans(c: Snap, d: Snap, e: Snap)
    requires SameViews(c, d) && SameViews(d, e)
    ensures SameViews(c, e)
  {
    assert forall dev: nat, b: nat :: OnDisk(c, dev, b) ==> OnDisk(d, dev, b);
  }

  lemma SameViewsRefl(c: Snap)
    ensures SameViews(c, c)
  {
  }

  /** A ring over `n` buffers without repetition visits every one of them. */
  lemma EveryBuffer(order: seq<nat>, n: nat)
    requires Machine.Distinct(order) && |order| == n && forall k :: 0 <= k < n ==> order[k] < n
    ensures forall i: nat :: i < n ==> i in order
  {
    ElemsSize(order, n);
    BelowSize(n);
    assert order[..n] == order;
    forall x | x in Elems(order, n) ensures x in Below(n) {
      var k :| 0 <= k < n && order[k] == x;
    }
    SubsetSame(Elems(order, n), Below(n));
  }

  ghost function Elems(order: seq<nat>, n: nat): (s: set<nat>)
    requires n <= |order|
    ensures forall x :: x in s <==> x in order[..n]
  {
    if n == 0 then {} else
      assert order[..n] == order[..n - 1] + [order[n - 1]];
      Elems(order, n - 1) + {order[n - 1]}
  }

  lemma {:induction false} ElemsSize(order: seq<nat>, n: nat)
    requires Machine.Distinct(order) && n <= |order|
    ensures |Elems(order, n)| == n
    decreases n
  {
    if n > 0 {
      ElemsSize(order, n - 1);
      assert order[n - 1] !in order[..n - 1];
    }
  }

  ghost function Below(n: nat): (s: set<nat>)
    ensures forall x: nat :: x in s <==> x < n
  {
    if n == 0 then {} else Below(n - 1) + {n - 1}
  }

  lemma {:induction false} BelowSize(n: nat)
    ensures |Below(n)| == n
  {
    if n > 0 {
      BelowSize(n - 1);
    }
  }

  lemma SubsetSame<T>(s: set<T>, t: set<T>)
    requires s <= t && |s| == |t|
    ensures s == t
  {
    assert |t - s| == 0;
  }
}
