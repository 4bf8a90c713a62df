/**
  The allocator of guest VSOCK context IDs: a cyclic scan over a mutable set.  The cursor
  is counted without wrapping in the history so that "one cycle later" can be said.
 */
module CidAllocator {
  import opened Bytes

  const MINIMUM_GUEST_CID: nat := 3
  const MAXIMUM_GUEST_CID: nat := 0x7fffffff

  predicate ValidRange(min: nat, max: nat) {
    MINIMUM_GUEST_CID <= min <= max <= MAXIMUM_GUEST_CID
  }

  /** `ticks` is how often the cursor moved since creation. */
  datatype Pool = Pool(min: nat, max: nat, ticks: nat, used: set<nat>) {
    predicate Valid() {
      ValidRange(min, max) && forall cid <- used :: min <= cid <= max
    }

    function Capacity(): nat
      requires Valid()
    {
      max - min + 1
    }

    /** The CID under the cursor after `k` moves. */
    function At(k: nat): nat {
      CidAt(min, max, k)
    }
  }

  function CidAt(min: nat, max: nat, k: nat): nat {
    if k == 0 then min else if CidAt(min, max, k - 1) == max then min else CidAt(min, max, k - 1) + 1
  }

  /** The CIDs under the cursor at positions `lo` up to `hi` are all in use. */
  predicate Busy(p: Pool, lo: nat, hi: nat) {
    forall k :: lo <= k < hi ==> p.At(k) in p.used
  }

  class Allocator {
    const min: nat
    const max: nat
    var next: nat
    var used: set<nat>
    ghost var ticks: nat

    ghost function View(): Pool
      reads this
    {
      Pool(min, max, ticks, used)
    }

    ghost predicate Valid()
      reads this
    {
      View().Valid() && next == View().At(ticks)
    }

    constructor (min: nat, max: nat)
      requires ValidRange(min, max)
      ensures Valid() && View() == Pool(min, max, 0, {})
    {
      this.min, this.max, next, used, ticks := min, max, min, {}, 0;
    }

    method Advance()
      requires Valid()
      modifies this`next, this`ticks
      ensures Valid() && ticks == old(ticks) + 1
    {
      if next == max {
        next := min;
      } else {
        next := next + 1;
      }
      ticks := ticks + 1;
    }

    /** The first free CID in cyclic order from the cursor; refused exactly when the whole range is in use. */
    method Allocate() returns (r: Option<nat>)
      requires Valid()
      modifies this
      ensures Valid() && (View(), r) == AllocateStep(old(View()))
    {
      var capacity := max - min + 1;
      var attempts := 0;
      while attempts < capacity
        invariant 0 <= attempts <= capacity
        invariant Valid() && View() == old(View()).(ticks := old(ticks) + attempts)
        invariant FirstFree(old(View()), old(ticks)) == FirstFree(old(View()), old(ticks) + attempts)
      {
        var candidate := next;
        InRange(min, max, ticks);
        Advance();
        if candidate !in used {
          used := used + {candidate};
          return Some(candidate);
        }
        attempts := attempts + 1;
      }
      return None;
    }

    method Reserve(cid: nat) returns (ok: bool)
      requires Valid()
      modifies this`used
      ensures Valid() && (View(), ok) == ReserveStep(old(View()), cid)
    {
      if cid < min || cid > max || cid in used {
        return false;
      }
      used := used + {cid};
      return true;
    }

    method Release(cid: nat) returns (ok: bool)
      requires Valid()
      modifies this`used
      ensures Valid() && (View(), ok) == ReleaseStep(old(View()), cid)
    {
      ok := cid in used;
      used := used - {cid};
    }
  }

  /** The first position from `k` on whose CID is free; one cycle past the cursor when there is none. */
  function FirstFree(p: Pool, k: nat): (n: nat)
    requires p.Valid() && p.ticks <= k <= p.ticks + p.Capacity()
    ensures k <= n <= p.ticks + p.Capacity()
    ensures n < p.ticks + p.Capacity() ==> p.At(n) !in p.used
    ensures Busy(p, k, n)
    decreases p.ticks + p.Capacity() - k
  {
    if k == p.ticks + p.Capacity() || p.At(k) !in p.used then k else FirstFree(p, k + 1)
  }

  function AllocateStep(p: Pool): (Pool, Option<nat>)
    requires p.Valid()
  {
    var n := FirstFree(p, p.ticks);
    if n == p.ticks + p.Capacity() then (p.(ticks := n), None)
    else (p.(ticks := n + 1, used := p.used + {p.At(n)}), Some(p.At(n)))
  }

  function ReserveStep(p: Pool, cid: nat): (Pool, bool) {
    if cid < p.min || cid > p.max || cid in p.used then (p, false) else (p.(used := p.used + {cid}), true)
  }

  function ReleaseStep(p: Pool, cid: nat): (Pool, bool) {
    (p.(used := p.used - {cid}), cid in p.used)
  }

  // ----- the cursor is cyclic

  lemma {:induction false} InRange(min: nat, max: nat, k: nat)
    requires min <= max
    ensures min <= CidAt(min, max, k) <= max
  {
    if k == 0 {
    } else {
      InRange(min, max, k - 1);
    }
  }

  /** Up to one cycle ahead of position `k`. */
  lemma {:induction false} Ahead(min: nat, max: nat, k: nat, d: nat)
    requires min <= max && d <= max - min + 1
    ensures var here := CidAt(min, max, k);
      CidAt(min, max, k + d) == if here + d <= max then here + d else here + d - (max - min + 1)
    decreases d
  {
    InRange(min, max, k);
    if d == 0 {
    } else {
      Ahead(min, max, k, d - 1);
      assert k + d - 1 == k + (d - 1);
    }
  }

  lemma CursorReaches(p: Pool, cid: nat) returns (k: nat)
    requires p.Valid() && p.min <= cid <= p.max
    ensures p.ticks <= k < p.ticks + p.Capacity() && p.At(k) == cid
  {
    var here := p.At(p.ticks);
    InRange(p.min, p.max, p.ticks);
    var d := if cid >= here then cid - here else cid - here + p.Capacity();
    Ahead(p.min, p.max, p.ticks, d);
    k := p.ticks + d;
  }

  /** Equal CIDs lie a whole number of cycles apart. */
  lemma {:induction false} SameCidSameTurn(p: Pool, i: nat, j: nat) returns (cycles: nat)
    requires p.Valid() && i < j && p.At(i) == p.At(j)
    ensures cycles >= 1 && j - i == cycles * p.Capacity()
    decreases j - i
  {
    var c := p.Capacity();
    InRange(p.min, p.max, i);
    if j - i <= c {
      Ahead(p.min, p.max, i, j - i);
      cycles := 1;
    } else {
      Ahead(p.min, p.max, i, c);
      var rest := SameCidSameTurn(p, i + c, j);
      cycles := rest + 1;
      assert (rest + 1) * c == rest * c + c;
    }
  }

  // ----- what one call means

  /** Allocate fails exactly when every CID of the range is in use. */
  lemma FailsExactlyWhenFull(p: Pool)
    requires p.Valid()
    ensures AllocateStep(p).1.None? <==> forall cid :: p.min <= cid <= p.max ==> cid in p.used
  {
    var n := FirstFree(p, p.ticks);
    if n == p.ticks + p.Capacity() {
      forall cid | p.min <= cid <= p.max ensures cid in p.used {
        var k := CursorReaches(p, cid);
      }
    } else {
      InRange(p.min, p.max, n);
    }
  }

  /** A returned CID was free and in range, and every CID the cursor passed before it was in use. */
  lemma ReturnsFirstFree(p: Pool)
    requires p.Valid() && AllocateStep(p).1.Some?
    ensures var (p', r) := AllocateStep(p);
      && p.min <= r.value <= p.max && r.value !in p.used && p'.used == p.used + {r.value}
      && p.ticks < p'.ticks <= p.ticks + p.Capacity()
      && r.value == p.At(p'.ticks - 1) && Busy(p, p.ticks, p'.ticks - 1)
  {
    InRange(p.min, p.max, FirstFree(p, p.ticks));
  }

  // ----- histories

  datatype Call = DoAllocate | DoReserve(cid: nat) | DoRelease(cid: nat)

  function Step(p: Pool, c: Call): (p': Pool)
    requires p.Valid()
    ensures p'.Valid() && p'.min == p.min && p'.max == p.max && p.ticks <= p'.ticks
  {
    match c
    case DoAllocate =>
      InRange(p.min, p.max, FirstFree(p, p.ticks));
      AllocateStep(p).0
    case DoReserve(cid) => ReserveStep(p, cid).0
    case DoRelease(cid) => ReleaseStep(p, cid).0
  }

  function Run(p: Pool, calls: seq<Call>): (p': Pool)
    requires p.Valid()
    ensures p'.Valid() && p'.min == p.min && p'.max == p.max && p.ticks <= p'.ticks
    decreases |calls|
  {
    if calls == [] then p else Run(Step(p, calls[0]), calls[1..])
  }

  /** What callers hold: one entry for each successful Allocate or Reserve, taken back by each successful Release. */
  function Ledger(p: Pool, live: multiset<nat>, calls: seq<Call>): multiset<nat>
    requires p.Valid()
    decreases |calls|
  {
    if calls == [] then live else
    var live' := match calls[0]
      case DoAllocate => (var r := AllocateStep(p).1; if r.Some? then live + multiset{r.value} else live)
      case DoReserve(cid) => if ReserveStep(p, cid).1 then live + multiset{cid} else live
      case DoRelease(cid) => if ReleaseStep(p, cid).1 then live - multiset{cid} else live;
    Ledger(Step(p, calls[0]), live', calls[1..])
  }

  /** Over any history the held CIDs are exactly the used set: distinct and in range. */
  lemma {:induction false} HeldAreDistinct(p: Pool, calls: seq<Call>)
    requires p.Valid()
    ensures Ledger(p, multiset(p.used), calls) == multiset(Run(p, calls).used)
    ensures forall cid <- Ledger(p, multiset(p.used), calls) ::
              Ledger(p, multiset(p.used), calls)[cid] == 1 && p.min <= cid <= p.max
    decreases |calls|
  {
    if calls == [] {
    } else {
      match calls[0] {
        case DoAllocate =>
          if AllocateStep(p).1.Some? {
            ReturnsFirstFree(p);
            assert multiset(p.used + {AllocateStep(p).1.value}) == multiset(p.used) + multiset{AllocateStep(p).1.value};
          }
        case DoReserve(cid) =>
          assert cid !in p.used ==> multiset(p.used + {cid}) == multiset(p.used) + multiset{cid};
        case DoRelease(cid) =>
          assert multiset(p.used - {cid}) == multiset(p.used) - multiset{cid};
          assert cid !in p.used ==> p.used - {cid} == p.used;
      }
      HeldAreDistinct(Step(p, calls[0]), calls[1..]);
      assert Ledger(p, multiset(p.used), calls) ==
             Ledger(Step(p, calls[0]), multiset(Step(p, calls[0]).used), calls[1..]);
    }
  }

  /** A CID comes back only after the cursor went round: whatever happens between two Allocates that return it. */
  lemma ReuseAfterWholeCycles(p: Pool, calls: seq<Call>) returns (cycles: nat)
    requires p.Valid() && AllocateStep(p).1.Some?
    requires AllocateStep(Run(Step(p, DoAllocate), calls)).1 == AllocateStep(p).1
    ensures cycles >= 1
    ensures AllocateStep(Run(Step(p, DoAllocate), calls)).0.ticks == AllocateStep(p).0.ticks + cycles * p.Capacity()
  {
    var p1 := Step(p, DoAllocate);
    var q := Run(p1, calls);
    ReturnsFirstFree(p);
    ReturnsFirstFree(q);
    cycles := SameCidSameTurn(p, p1.ticks - 1, AllocateStep(q).0.ticks - 1);
  }
}
