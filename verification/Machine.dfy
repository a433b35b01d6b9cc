/** Vocabulary shared by the models: bytes, fixed-width counters, process states. */
module Machine {

  newtype byte = x: int | 0 <= x < 256

  /** Where 32-bit counters wrap. */
  const W32 := 0x1_0000_0000

  /** enum procstate. */
  datatype ProcState = UNUSED | USED | SLEEPING | RUNNABLE | RUNNING | ZOMBIE

  datatype Option<+T> = None | Some(value: T)

  function Min(a: int, b: int): int {
    if a < b then a else b
  }

  /** Distance from counter `lo` up to counter `hi` when both wrap at `m`. */
  function Dist(lo: nat, hi: nat, m: nat): (d: nat)
    requires lo < m && hi < m
    ensures d < m
  {
    if lo <= hi then hi - lo else hi + m - lo
  }

  /** A counter bumped by less than its own range. */
  function Bump(c: nat, k: nat, m: nat): (r: nat)
    requires c < m && k <= m
    ensures r < m
  {
    if c + k < m then c + k else c + k - m
  }

  /** The only multiple of `d` strictly between `-d` and `d` is zero. */
  lemma MultipleBelow(q: int, d: int)
    requires -d < q * d < d
    ensures q == 0
  {
    assert q >= 1 ==> q * d >= d;
    assert q <= -1 ==> q * d <= -d;
  }

  /** Splitting `a` as quotient and remainder determines both. */
  lemma DivModUnique(a: nat, d: nat, q: nat, r: nat)
    requires d > 0 && r < d && a == q * d + r
    ensures a / d == q && a % d == r
  {
    var q', r' := a / d, a % d;
    assert a == q' * d + r';
    assert (q - q') * d == r' - r;
    MultipleBelow(q - q', d);
  }

  /** Adding a whole number of periods does not move a slot. */
  lemma ModShift(a: nat, k: nat, d: nat)
    requires d > 0
    ensures (a + k * d) % d == a % d
  {
    DivModUnique(a + k * d, d, a / d + k, a % d);
  }

  /** Two offsets closer than `d` land on the same slot only if they are equal. */
  lemma SlotInjective(a: nat, b: nat, d: nat)
    requires d > 0 && a <= b < a + d && a % d == b % d
    ensures a == b
  {
    var qa, qb := a / d, b / d;
    assert b - a == (qb - qa) * d;
    MultipleBelow(qb - qa, d);
  }

  /** The slot `j` places after counter `c`. */
  function SlotAt(c: nat, j: nat, cap: nat): (p: nat)
    requires cap > 0
    ensures p < cap
  {
    (c + j) % cap
  }

  /** Fewer than `cap` places apart means different slots. */
  lemma SlotsDiffer(c: nat, j: nat, x: nat, cap: nat)
    requires cap > 0 && j < x < j + cap
    ensures SlotAt(c, j, cap) != SlotAt(c, x, cap)
  {
    if (c + j) % cap == (c + x) % cap {
      SlotInjective(c + j, c + x, cap);
    }
  }

  /** A counter that wraps at a multiple of `cap` keeps pointing at the right slot. */
  lemma SlotWraps(c: nat, k: nat, j: nat, cap: nat, m: nat)
    requires 0 < cap && 0 < m && m % cap == 0 && c < m && k <= m
    ensures SlotAt(Bump(c, k, m), j, cap) == SlotAt(c, k + j, cap)
  {
    if c + k >= m {
      var w := m / cap;
      assert m == w * cap;
      ModShift(c + k + j - m, w, cap);
    }
  }

  function Quot(a: nat, d: nat): nat
    requires d > 0
  {
    a / d
  }

  function Rest(a: nat, d: nat): (r: nat)
    requires d > 0
    ensures r < d
  {
    a % d
  }

  /** Positions inside one block of `bs` bytes, and positions counted from the start. */
  lemma SameBlock(bs: nat, off: nat, n: nat, o: nat)
    requires bs > 0 && Rest(off, bs) + n <= bs
    ensures off <= o < off + n <==> Quot(o, bs) == Quot(off, bs) && Rest(off, bs) <= Rest(o, bs) < Rest(off, bs) + n
    ensures off <= o < off + n ==> Rest(o, bs) - Rest(off, bs) == o - off
  {
    var q, r := off / bs, off % bs;
    if off <= o < off + n {
      DivModUnique(o, bs, q, r + (o - off));
    }
    assert o == bs * (o / bs) + o % bs && off == bs * q + r;
  }

  /** A chunk that reaches the end of its block leads to the start of the next one. */
  lemma BlockEnd(off: nat, bs: nat)
    requires bs > 0
    ensures var m := bs - Rest(off, bs); Quot(off + m, bs) == Quot(off, bs) + 1 && Rest(off + m, bs) == 0
  {
    var q, r := off / bs, off % bs;
    assert off + (bs - r) == (q + 1) * bs;
    DivModUnique(off + (bs - r), bs, q + 1, 0);
  }

  predicate Distinct(s: seq<nat>) {
    forall i, j :: 0 <= i < j < |s| ==> s[i] != s[j]
  }

  /** `s` with `bytes` written over it from position `at` on. */
  function Spliced(s: seq<byte>, at: nat, bytes: seq<byte>): (r: seq<byte>)
    requires at + |bytes| <= |s|
    ensures |r| == |s|
    ensures forall k :: 0 <= k < |r| ==> r[k] == if at <= k < at + |bytes| then bytes[k - at] else s[k]
  {
    s[..at] + bytes + s[at + |bytes|..]
  }
}
