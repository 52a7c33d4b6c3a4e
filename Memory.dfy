/**
 * The kernel heap (memory.c): a first-fit allocator over one contiguous arena,
 * kept as an address-ordered list of blocks, and the bounded table of process
 * stacks carved out of it.
 *
 * The block list is a sequence of (start, size, free) records in address order;
 * the header of block k lives in the H bytes just before its start address.
 * The functions below are the value-level meaning of each operation; the class
 * Heap at the end keeps the allocator's globals and implements each operation
 * with the loops of the C code, proved equal to these functions.
 */
module Memory {

  import Seqs

  /** sizeof(mem_block_t) on the 32-bit target: five 4-byte fields. */
  const H: nat := 20
  const HEAP_SIZE: nat := 0x10_0000
  const STACK_SIZE: nat := 0x2000
  const MAX_BLOCKS: nat := 256
  /** A free block is split only if it exceeds the request by more than a header and this many bytes. */
  const SPLIT_SLACK: nat := 8
  const U32: nat := 0x1_0000_0000

  /** Reduction of an integer to uint32, as C's unsigned arithmetic does. */
  function Wrap(x: int): (r: nat)
    ensures r < U32
    ensures 0 <= x < U32 ==> r == x
  {
    x % 0x1_0000_0000
  }

  datatype Block = Block(start: nat, size: nat, free: bool)

  datatype StackRecord = StackRecord(base: nat, size: nat, pid: int)

  /** Everything memory.c keeps in globals: the block list, heap_used and the live stack records. */
  datatype MemState = MemState(blocks: seq<Block>, used: nat, stacks: seq<StackRecord>)

  /** Address of the header that follows block b in a contiguous list. */
  function NextStart(b: Block): nat
  {
    b.start + b.size + H
  }

  ghost predicate Contiguous(bs: seq<Block>)
  {
    forall j, k :: 0 <= j && k == j + 1 && k < |bs| ==> bs[k].start == NextStart(bs[j])
  }

  /** The blocks tile the arena [base, base + HEAP_SIZE) exactly, headers included. */
  ghost predicate Layout(base: nat, bs: seq<Block>)
  {
    |bs| > 0 && bs[0].start == base + H && Contiguous(bs)
    && bs[|bs| - 1].start + bs[|bs| - 1].size == base + HEAP_SIZE
  }

  ghost predicate NoAdjacentFree(bs: seq<Block>)
  {
    forall j, k :: 0 <= j && k == j + 1 && k < |bs| ==> !(bs[j].free && bs[k].free)
  }

  /** Bytes the blocks occupy, each with its header. */
  function Footprint(bs: seq<Block>): nat
  {
    if bs == [] then 0 else bs[0].size + H + Footprint(bs[1..])
  }

  function UsedSum(bs: seq<Block>): nat
  {
    if bs == [] then 0 else (if bs[0].free then 0 else bs[0].size) + UsedSum(bs[1..])
  }

  function FreeSum(bs: seq<Block>): nat
  {
    if bs == [] then 0 else (if bs[0].free then bs[0].size else 0) + FreeSum(bs[1..])
  }

  /** heap_used agrees with the blocks handed out. */
  ghost predicate Accounted(m: MemState)
  {
    m.used == UsedSum(m.blocks)
  }

  // ---------------------------------------------------------------- layout facts

  lemma {:induction false} StartsIncrease(bs: seq<Block>, a: nat, b: nat)
    requires Contiguous(bs) && a < b < |bs|
    ensures bs[a].start < bs[b].start
    decreases b - a
  {
    assert bs[a + 1].start == NextStart(bs[a]);
    if a + 1 < b {
      StartsIncrease(bs, a + 1, b);
    }
  }

  lemma {:induction false} FootprintSpan(bs: seq<Block>)
    requires |bs| > 0 && Contiguous(bs)
    ensures Footprint(bs) + bs[0].start == bs[|bs| - 1].start + bs[|bs| - 1].size + H
  {
    if |bs| > 1 {
      var t := bs[1..];
      assert Contiguous(t) by {
        forall k | 0 <= k < |t| - 1 ensures t[k + 1].start == NextStart(t[k]) {
          assert t[k] == bs[k + 1] && t[k + 1] == bs[k + 2];
        }
      }
      FootprintSpan(t);
      assert bs[1].start == NextStart(bs[0]);
    }
  }

  /** Conservation: the sum of size + H over all blocks is the arena size. */
  lemma Conservation(base: nat, bs: seq<Block>)
    requires Layout(base, bs)
    ensures Footprint(bs) == HEAP_SIZE
  {
    FootprintSpan(bs);
  }

  lemma {:induction false} FootprintSplits(bs: seq<Block>)
    ensures Footprint(bs) == UsedSum(bs) + FreeSum(bs) + H * |bs|
  {
    if bs != [] {
      FootprintSplits(bs[1..]);
    }
  }

  /** What the blocks hold, plus one header per block, is the whole arena. */
  lemma UsedPlusFree(base: nat, bs: seq<Block>)
    requires Layout(base, bs)
    ensures UsedSum(bs) + FreeSum(bs) + H * |bs| == HEAP_SIZE
  {
    Conservation(base, bs);
    FootprintSplits(bs);
  }

  lemma {:induction false} SumsConcat(a: seq<Block>, b: seq<Block>)
    ensures UsedSum(a + b) == UsedSum(a) + UsedSum(b)
    ensures FreeSum(a + b) == FreeSum(a) + FreeSum(b)
  {
    if a == [] {
      assert a + b == b;
    } else {
      assert (a + b)[1..] == a[1..] + b;
      SumsConcat(a[1..], b);
    }
  }

  lemma UsedSumThree(a: seq<Block>, b: seq<Block>, c: seq<Block>)
    ensures UsedSum(a + b + c) == UsedSum(a) + UsedSum(b) + UsedSum(c)
  {
    SumsConcat(a + b, c);
    SumsConcat(a, b);
  }

  /** A run in which every block but the k-th is free uses only the k-th block's bytes. */
  lemma {:induction false} UsedSumFreeExcept(run: seq<Block>, k: int)
    requires forall j :: 0 <= j < |run| && j != k ==> run[j].free
    ensures UsedSum(run) == (if 0 <= k < |run| && !run[k].free then run[k].size else 0)
  {
    if run != [] {
      var t := run[1..];
      forall j | 0 <= j < |t| && j != k - 1 ensures t[j].free {
        assert t[j] == run[j + 1];
      }
      UsedSumFreeExcept(t, k - 1);
      if 0 < k < |run| {
        assert t[k - 1] == run[k];
      }
    }
  }

  /** Replacing a run of blocks by a contiguous run that covers the same bytes keeps the layout. */
  lemma ReplaceKeepsLayout(base: nat, bs: seq<Block>, i: nat, j: nat, mid: seq<Block>)
    requires Layout(base, bs) && i < j <= |bs| && |mid| > 0 && Contiguous(mid)
    requires mid[0].start == bs[i].start && NextStart(mid[|mid| - 1]) == NextStart(bs[j - 1])
    ensures Layout(base, bs[..i] + mid + bs[j..])
  {
    var r := bs[..i] + mid + bs[j..];
    var n := |mid|;
    assert |r| == |bs| - (j - i) + n;
    forall k | 0 <= k < |r| - 1 ensures r[k + 1].start == NextStart(r[k]) {
      if k + 1 < i {
        assert r[k] == bs[k] && r[k + 1] == bs[k + 1];
      } else if k + 1 == i {
        assert r[k] == bs[k] && r[k + 1] == mid[0];
      } else if k + 1 < i + n {
        assert r[k] == mid[k - i] && r[k + 1] == mid[k + 1 - i];
      } else if k + 1 == i + n {
        assert r[k] == mid[n - 1] && r[k + 1] == bs[j];
        assert bs[j].start == NextStart(bs[j - 1]);
      } else {
        assert r[k] == bs[k - n + (j - i)] && r[k + 1] == bs[k + 1 - n + (j - i)];
      }
    }
    if i == 0 {
      assert r[0] == mid[0];
    } else {
      assert r[0] == bs[0];
    }
    if j == |bs| {
      assert r[|r| - 1] == mid[n - 1];
    } else {
      assert r[|r| - 1] == bs[|bs| - 1];
    }
  }

  /** Replacing a run of blocks keeps "no two neighbours free" when the seams are safe. */
  lemma ReplaceKeepsNoAdjacentFree(bs: seq<Block>, i: nat, j: nat, mid: seq<Block>)
    requires NoAdjacentFree(bs) && NoAdjacentFree(mid) && i <= j <= |bs| && |mid| > 0
    requires 0 < i && mid[0].free ==> !bs[i - 1].free
    requires j < |bs| && mid[|mid| - 1].free ==> !bs[j].free
    ensures NoAdjacentFree(bs[..i] + mid + bs[j..])
  {
    var r := bs[..i] + mid + bs[j..];
    var n := |mid|;
    forall k | 0 <= k < |r| - 1 ensures !(r[k].free && r[k + 1].free) {
      if k + 1 < i {
        assert r[k] == bs[k] && r[k + 1] == bs[k + 1];
      } else if k + 1 == i {
        assert r[k] == bs[k] && r[k + 1] == mid[0];
      } else if k + 1 < i + n {
        assert r[k] == mid[k - i] && r[k + 1] == mid[k + 1 - i];
      } else if k + 1 == i + n {
        assert r[k] == mid[n - 1] && r[k + 1] == bs[j];
      } else {
        assert r[k] == bs[k - n + (j - i)] && r[k + 1] == bs[k + 1 - n + (j - i)];
      }
    }
  }

  // ---------------------------------------------------------------- kmalloc

  /** The C expression (size + 7) & ~7 on a uint32. */
  function RoundUp8(size: nat): (r: nat)
    requires size < U32
    ensures r % 8 == 0 && r < U32
    ensures size + 7 < U32 ==> size <= r < size + 8
    ensures size + 7 >= U32 ==> r == 0
  {
    (size + 7) % 0x1_0000_0000 / 8 * 8
  }

  predicate Fits(b: Block, size: nat)
  {
    b.free && b.size >= size
  }

  /** Index of the first free block, in address order, that holds size bytes; -1 if none. */
  function FirstFit(bs: seq<Block>, size: nat): (r: int)
    ensures -1 <= r < |bs|
    ensures r >= 0 ==> Fits(bs[r], size)
    ensures forall k :: 0 <= k < |bs| && (r < 0 || k < r) ==> !Fits(bs[k], size)
  {
    if bs == [] then -1
    else if Fits(bs[0], size) then 0
    else
      var r := FirstFit(bs[1..], size);
      assert forall k :: 1 <= k < |bs| ==> bs[k] == bs[1..][k - 1];
      if r < 0 then -1 else r + 1
  }

  /** The result of one first-fit search: the new list, the address handed out (0 for NULL)
      and the size of the block handed out. */
  datatype Grant = Grant(blocks: seq<Block>, addr: nat, taken: nat)

  /** First fit for an already rounded size, splitting the block when the remainder is worth it. */
  function Alloc(bs: seq<Block>, size: nat): (g: Grant)
    ensures FirstFit(bs, size) < 0 ==> g == Grant(bs, 0, 0)
    ensures FirstFit(bs, size) >= 0 ==>
      var i := FirstFit(bs, size);
      && g.addr == bs[i].start && size <= g.taken <= size + H + SPLIT_SLACK
      && i < |g.blocks| && g.blocks[i] == Block(bs[i].start, g.taken, false)
      && g.blocks[..i] == bs[..i]
  {
    var i := FirstFit(bs, size);
    if i < 0 then Grant(bs, 0, 0)
    else
      var b := bs[i];
      if b.size > size + H + SPLIT_SLACK then Grant(Split(bs, i, size), b.start, size)
      else Grant(Take(bs, i), b.start, b.size)
  }

  /** Block i shrinks to size bytes, in use, and a free block takes the rest after a new header. */
  function Split(bs: seq<Block>, i: nat, size: nat): (r: seq<Block>)
    requires i < |bs| && bs[i].size >= size + H
    ensures |r| == |bs| + 1
  {
    bs[..i] + [Block(bs[i].start, size, false), Block(bs[i].start + size + H, bs[i].size - size - H, true)] + bs[i + 1..]
  }

  /** Block i is handed out whole. */
  function Take(bs: seq<Block>, i: nat): (r: seq<Block>)
    requires i < |bs|
    ensures |r| == |bs|
  {
    bs[i := bs[i].(free := false)]
  }

  /** The two shapes of a grant: a split leaves the request's block in use followed by a new
      free block holding the rest; otherwise the block is taken whole. Later blocks stay. */
  lemma AllocShape(bs: seq<Block>, size: nat)
    requires FirstFit(bs, size) >= 0
    ensures var i := FirstFit(bs, size);
      var g := Alloc(bs, size);
      if bs[i].size > size + H + SPLIT_SLACK then
        && |g.blocks| == |bs| + 1 && g.taken == size
        && g.blocks[i + 1] == Block(bs[i].start + size + H, bs[i].size - size - H, true)
        && g.blocks[i + 2..] == bs[i + 1..]
      else
        |g.blocks| == |bs| && g.taken == bs[i].size && g.blocks[i + 1..] == bs[i + 1..]
  {
  }

  lemma AllocKeepsLayout(base: nat, bs: seq<Block>, size: nat)
    requires Layout(base, bs) && NoAdjacentFree(bs)
    ensures Layout(base, Alloc(bs, size).blocks) && NoAdjacentFree(Alloc(bs, size).blocks)
  {
    var i := FirstFit(bs, size);
    if i >= 0 {
      var b := bs[i];
      var mid := if b.size > size + H + SPLIT_SLACK
        then [Block(b.start, size, false), Block(b.start + size + H, b.size - size - H, true)]
        else [b.(free := false)];
      assert Alloc(bs, size).blocks == bs[..i] + mid + bs[i + 1..];
      ReplaceKeepsLayout(base, bs, i, i + 1, mid);
      ReplaceKeepsNoAdjacentFree(bs, i, i + 1, mid);
    }
  }

  /** Accounting: a grant adds exactly the size of the block handed out to the used bytes. */
  lemma AllocUsedSum(bs: seq<Block>, size: nat)
    ensures UsedSum(Alloc(bs, size).blocks) == UsedSum(bs) + Alloc(bs, size).taken
  {
    var i := FirstFit(bs, size);
    if i >= 0 {
      var b := bs[i];
      var mid := if b.size > size + H + SPLIT_SLACK
        then [Block(b.start, size, false), Block(b.start + size + H, b.size - size - H, true)]
        else [b.(free := false)];
      assert Alloc(bs, size).blocks == bs[..i] + mid + bs[i + 1..];
      assert bs == bs[..i] + [b] + bs[i + 1..];
      SumsConcat(bs[..i] + mid, bs[i + 1..]);
      SumsConcat(bs[..i], mid);
      SumsConcat(bs[..i] + [b], bs[i + 1..]);
      SumsConcat(bs[..i], [b]);
      UsedSumFreeExcept(mid, 0);
      UsedSumFreeExcept([b], 0);
    }
  }

  // ---------------------------------------------------------------- kfree

  /** Index of the block that starts at address p; -1 if none. */
  function IndexOf(bs: seq<Block>, p: nat): (r: int)
    ensures -1 <= r < |bs|
    ensures r >= 0 ==> bs[r].start == p
    ensures forall k :: 0 <= k < |bs| && (r < 0 || k < r) ==> bs[k].start != p
  {
    if bs == [] then -1
    else if bs[0].start == p then 0
    else
      var r := IndexOf(bs[1..], p);
      assert forall k :: 1 <= k < |bs| ==> bs[k] == bs[1..][k - 1];
      if r < 0 then -1 else r + 1
  }

  lemma IndexOfStart(bs: seq<Block>, i: nat)
    requires Contiguous(bs) && i < |bs|
    ensures IndexOf(bs, bs[i].start) == i
  {
    var r := IndexOf(bs, bs[i].start);
    if r != i {
      if 0 <= r < i {
        StartsIncrease(bs, r, i);
      } else if r > i {
        StartsIncrease(bs, i, r);
      }
    }
  }

  function MarkFree(bs: seq<Block>, i: nat): (r: seq<Block>)
    requires i < |bs|
    ensures |r| == |bs| && r[i].free
  {
    bs[i := bs[i].(free := true)]
  }

  /** Absorb the following block into block i when that block is free. */
  function MergeNext(bs: seq<Block>, i: nat): (r: seq<Block>)
    requires i < |bs|
    ensures i < |r| <= |bs|
  {
    if i + 1 < |bs| && bs[i + 1].free then
      bs[..i] + [bs[i].(size := bs[i].size + H + bs[i + 1].size)] + bs[i + 2..]
    else bs
  }

  /** Absorb block i into the preceding block when that block is free. */
  function MergePrev(bs: seq<Block>, i: nat): (r: seq<Block>)
    requires i < |bs|
    ensures |r| <= |bs|
  {
    if 0 < i && bs[i - 1].free then
      bs[..i - 1] + [bs[i - 1].(size := bs[i - 1].size + H + bs[i].size)] + bs[i + 1..]
    else bs
  }

  /** kfree on block i: mark it free, then coalesce with the next block, then with the previous one. */
  function Release(bs: seq<Block>, i: nat): seq<Block>
    requires i < |bs|
  {
    MergePrev(MergeNext(MarkFree(bs, i), i), i)
  }

  /** The coalesced block of Release: it runs from block lo to block hi - 1 of the old list. */
  lemma ReleaseShape(bs: seq<Block>, i: nat) returns (lo: nat, hi: nat, merged: Block)
    requires i < |bs|
    ensures lo <= i < hi <= |bs| && merged.free && merged.start == bs[lo].start
    ensures lo == (if 0 < i && bs[i - 1].free then i - 1 else i)
    ensures hi == (if i + 1 < |bs| && bs[i + 1].free then i + 2 else i + 1)
    ensures merged.size == (if lo < i then bs[i - 1].size + H else 0) + bs[i].size
                           + (if i + 1 < hi then H + bs[i + 1].size else 0)
    ensures Release(bs, i) == bs[..lo] + [merged] + bs[hi..]
  {
    var m := MarkFree(bs, i);
    var n := MergeNext(m, i);
    lo := if 0 < i && bs[i - 1].free then i - 1 else i;
    hi := if i + 1 < |bs| && bs[i + 1].free then i + 2 else i + 1;
    var cur := bs[i].(free := true, size := bs[i].size + (if i + 1 < hi then H + bs[i + 1].size else 0));
    assert n == bs[..i] + [cur] + bs[hi..];
    if lo < i {
      merged := bs[i - 1].(size := bs[i - 1].size + H + cur.size);
      assert n[i - 1] == bs[i - 1] && n[i] == cur;
      assert n[..i - 1] == bs[..i - 1];
      assert n[i + 1..] == bs[hi..];
    } else {
      merged := cur;
      assert i > 0 ==> n[i - 1] == bs[i - 1];
    }
  }

  lemma ReleaseKeepsLayout(base: nat, bs: seq<Block>, i: nat)
    requires Layout(base, bs) && NoAdjacentFree(bs) && i < |bs|
    ensures Layout(base, Release(bs, i)) && NoAdjacentFree(Release(bs, i))
  {
    var lo, hi, merged := ReleaseShape(bs, i);
    if lo < i {
      assert bs[i].start == NextStart(bs[i - 1]);
    }
    if i + 1 < hi {
      assert bs[i + 1].start == NextStart(bs[i]);
    }
    ReplaceKeepsLayout(base, bs, lo, hi, [merged]);
    if 0 < lo && lo < i {
      var before, prev := bs[lo - 1], bs[lo];
      assert !(before.free && prev.free);
    }
    if hi < |bs| && i + 1 < hi {
      var next, after := bs[hi - 1], bs[hi];
      assert !(next.free && after.free);
    }
    ReplaceKeepsNoAdjacentFree(bs, lo, hi, [merged]);
  }

  /** Accounting: freeing a block that was handed out removes exactly its size from the used bytes. */
  lemma ReleaseUsedSum(bs: seq<Block>, i: nat)
    requires NoAdjacentFree(bs) && i < |bs| && !bs[i].free
    ensures UsedSum(Release(bs, i)) + bs[i].size == UsedSum(bs)
  {
    var lo, hi, merged := ReleaseShape(bs, i);
    CoalescedUsedSum(bs, i, lo, hi, merged);
  }

  lemma CoalescedUsedSum(bs: seq<Block>, i: nat, lo: nat, hi: nat, merged: Block)
    requires lo <= i < hi <= |bs| && merged.free && !bs[i].free
    requires forall j :: lo <= j < hi && j != i ==> bs[j].free
    ensures UsedSum(bs[..lo] + [merged] + bs[hi..]) + bs[i].size == UsedSum(bs)
  {
    var run := bs[lo..hi];
    assert bs == bs[..lo] + run + bs[hi..];
    UsedSumThree(bs[..lo], [merged], bs[hi..]);
    UsedSumThree(bs[..lo], run, bs[hi..]);
    forall j | 0 <= j < |run| && j != i - lo ensures run[j].free {
      assert run[j] == bs[lo + j];
    }
    UsedSumFreeExcept(run, i - lo);
    assert run[i - lo] == bs[i];
    UsedSumFreeExcept([merged], -1);
  }

  /** Freeing a block that is already free changes no block: its neighbours are not free. */
  lemma ReleaseFreeBlock(bs: seq<Block>, i: nat)
    requires NoAdjacentFree(bs) && i < |bs| && bs[i].free
    ensures Release(bs, i) == bs
  {
    var cur := bs[i];
    if 0 < i {
      var prev := bs[i - 1];
      assert !(prev.free && cur.free);
    }
    if i + 1 < |bs| {
      var next := bs[i + 1];
      assert !(cur.free && next.free);
    }
    var lo, hi, merged := ReleaseShape(bs, i);
    assert merged == bs[i];
    assert bs == bs[..i] + [bs[i]] + bs[i + 1..];
  }

  // ---------------------------------------------------------------- the globals of memory.c

  /** kmalloc: NULL for a zero request and for a request no free block holds, with nothing
      changed; otherwise the first fit for the rounded size, and heap_used grows by the size
      of the block handed out. */
  function Malloc(m: MemState, size: nat): (r: (MemState, nat))
    requires size < U32
    ensures r.0.stacks == m.stacks
    ensures size == 0 || FirstFit(m.blocks, RoundUp8(size)) < 0 ==> r == (m, 0)
    ensures size > 0 && FirstFit(m.blocks, RoundUp8(size)) >= 0 ==>
      r.1 == m.blocks[FirstFit(m.blocks, RoundUp8(size))].start
  {
    if size == 0 then (m, 0)
    else
      var n := RoundUp8(size);
      if FirstFit(m.blocks, n) < 0 then (m, 0)
      else
        var g := Alloc(m.blocks, n);
        (Granted(m, g), g.addr)
  }

  /** The globals after kmalloc hands out g: the new block list, and heap_used grown by the
      size of the block handed out. */
  function Granted(m: MemState, g: Grant): (r: MemState)
    ensures r.blocks == g.blocks && r.stacks == m.stacks
  {
    m.(blocks := g.blocks, used := Wrap(m.used + g.taken))
  }

  /** kfree: NULL and addresses that start no block change nothing. heap_used drops by the
      block's size even when the block is already free. */
  function Free(m: MemState, p: nat): (r: MemState)
    ensures r.stacks == m.stacks
    ensures p == 0 || IndexOf(m.blocks, p) < 0 ==> r == m
  {
    if p == 0 then m
    else
      var i := IndexOf(m.blocks, p);
      if i < 0 then m
      else Released(m, i)
  }

  /** The globals after kfree releases block i: coalesced list, heap_used less the block's size. */
  function Released(m: MemState, i: nat): (r: MemState)
    requires i < |m.blocks|
    ensures r.stacks == m.stacks
  {
    m.(blocks := Release(m.blocks, i), used := Wrap(m.used - m.blocks[i].size))
  }

  /** Index of the first stack record of pid; -1 if none. */
  function StackIndex(st: seq<StackRecord>, pid: int): (r: int)
    ensures -1 <= r < |st|
    ensures r >= 0 ==> st[r].pid == pid
    ensures forall k :: 0 <= k < |st| && (r < 0 || k < r) ==> st[k].pid != pid
  {
    if st == [] then -1
    else if st[0].pid == pid then 0
    else
      var r := StackIndex(st[1..], pid);
      assert forall k :: 1 <= k < |st| ==> st[k] == st[1..][k - 1];
      if r < 0 then -1 else r + 1
  }

  /** allocate_stack: a STACK_SIZE block recorded for pid; returns its top, or 0 when the
      table is full or the heap has no room. */
  function StackAlloc(m: MemState, pid: int): (r: (MemState, nat))
    ensures |m.stacks| >= MAX_BLOCKS ==> r == (m, 0)
    ensures r.1 == 0 ==> r.0.stacks == m.stacks
    ensures |m.stacks| < MAX_BLOCKS && Malloc(m, STACK_SIZE).1 != 0 ==>
      && r.0.blocks == Malloc(m, STACK_SIZE).0.blocks && r.0.used == Malloc(m, STACK_SIZE).0.used
      && r.0.stacks == m.stacks + [StackRecord(Malloc(m, STACK_SIZE).1, STACK_SIZE, pid)]
      && r.1 == Malloc(m, STACK_SIZE).1 + STACK_SIZE
  {
    if |m.stacks| >= MAX_BLOCKS then (m, 0)
    else if Malloc(m, STACK_SIZE).1 == 0 then (Malloc(m, STACK_SIZE).0, 0)
    else (Recorded(Malloc(m, STACK_SIZE).0, Malloc(m, STACK_SIZE).1, pid), Malloc(m, STACK_SIZE).1 + STACK_SIZE)
  }

  /** The globals after allocate_stack records a stack at addr for pid. */
  function Recorded(m: MemState, addr: nat, pid: int): (r: MemState)
    ensures r.blocks == m.blocks && r.used == m.used
    ensures |r.stacks| == |m.stacks| + 1 && r.stacks[..|m.stacks|] == m.stacks
    ensures r.stacks[|m.stacks|] == StackRecord(addr, STACK_SIZE, pid)
  {
    m.(stacks := m.stacks + [StackRecord(addr, STACK_SIZE, pid)])
  }

  /** free_stack: frees the base of pid's first record and drops that record; unknown pids
      change nothing. */
  function StackFree(m: MemState, pid: int): (r: MemState)
    ensures StackIndex(m.stacks, pid) < 0 ==> r == m
    ensures StackIndex(m.stacks, pid) >= 0 ==>
      var i := StackIndex(m.stacks, pid);
      && r.blocks == Free(m, m.stacks[i].base).blocks && r.used == Free(m, m.stacks[i].base).used
      && r.stacks == m.stacks[..i] + m.stacks[i + 1..]
  {
    var i := StackIndex(m.stacks, pid);
    if i < 0 then m
    else Free(m, m.stacks[i].base).(stacks := Seqs.RemoveAt(m.stacks, i))
  }

  /** The allocator's invariant over its whole state. */
  ghost predicate Sound(base: nat, m: MemState)
  {
    Layout(base, m.blocks) && NoAdjacentFree(m.blocks) && m.used < U32
  }

  // ---------------------------------------------------------------- properties of the operations

  lemma MallocKeepsSound(base: nat, m: MemState, size: nat)
    requires Sound(base, m) && size < U32
    ensures Sound(base, Malloc(m, size).0)
  {
    if size > 0 {
      AllocKeepsLayout(base, m.blocks, RoundUp8(size));
    }
  }

  lemma FreeKeepsSound(base: nat, m: MemState, p: nat)
    requires Sound(base, m)
    ensures Sound(base, Free(m, p))
  {
    var i := IndexOf(m.blocks, p);
    if p != 0 && i >= 0 {
      ReleaseKeepsLayout(base, m.blocks, i);
    }
  }

  /** A successful kmalloc hands out the first fitting block, not free any more, whose size is
      the rounded request or at most a header and the split slack more. */
  lemma MallocGrant(base: nat, m: MemState, size: nat)
    requires Sound(base, m) && 0 < size && size + 7 < U32
    requires Malloc(m, size).1 != 0
    ensures var n := RoundUp8(size);
      var i := FirstFit(m.blocks, n);
      var bs := Malloc(m, size).0.blocks;
      && 0 <= i < |bs| && bs[i].start == Malloc(m, size).1 && !bs[i].free
      && size <= n <= bs[i].size <= n + H + SPLIT_SLACK
      && (forall k :: 0 <= k < i ==> !Fits(m.blocks[k], n))
      && bs[..i] == m.blocks[..i]
  {
  }

  lemma WrapUndo(u: nat, t: nat)
    requires u < U32
    ensures Wrap(Wrap(u + t) - t) == u
  {
    var q := (u + t) / U32;
    assert Wrap(u + t) == u + t - q * U32;
    assert Wrap(u + t) - t == u - q * U32;
    assert (u - q * U32) % U32 == u;
  }

  /** The neighbours of a free block are not free. */
  lemma FreeNeighbours(bs: seq<Block>, i: nat)
    requires NoAdjacentFree(bs) && i < |bs| && bs[i].free
    ensures 0 < i ==> !bs[i - 1].free
    ensures i + 1 < |bs| ==> !bs[i + 1].free
  {
    var b := bs[i];
    if 0 < i {
      var prev := bs[i - 1];
      assert !(prev.free && b.free);
    }
    if i + 1 < |bs| {
      var next := bs[i + 1];
      assert !(b.free && next.free);
    }
  }

  /** The address kmalloc hands out names the granted block. */
  lemma AllocAddrIndex(base: nat, bs: seq<Block>, n: nat)
    requires Layout(base, bs) && NoAdjacentFree(bs) && FirstFit(bs, n) >= 0
    ensures IndexOf(Alloc(bs, n).blocks, Alloc(bs, n).addr) == FirstFit(bs, n)
  {
    AllocKeepsLayout(base, bs, n);
    IndexOfStart(Alloc(bs, n).blocks, FirstFit(bs, n));
  }

  /** Splitting a free block and coalescing it again gives back the original list. */
  lemma AllocReleaseInverse(bs: seq<Block>, n: nat)
    requires NoAdjacentFree(bs) && FirstFit(bs, n) >= 0
    ensures Release(Alloc(bs, n).blocks, FirstFit(bs, n)) == bs
  {
    var i := FirstFit(bs, n);
    var b := bs[i];
    FreeNeighbours(bs, i);
    if b.size > n + H + SPLIT_SLACK {
      SplitThenRelease(bs, i, n);
    } else {
      TakeThenRelease(bs, i);
    }
  }

  lemma SplitThenRelease(bs: seq<Block>, i: nat, n: nat)
    requires i < |bs| && bs[i].free && bs[i].size > n + H
    requires 0 < i ==> !bs[i - 1].free
    ensures Release(Split(bs, i, n), i) == bs
  {
    var b := bs[i];
    var gb := Split(bs, i, n);
    var lo, hi, merged := ReleaseShape(gb, i);
    assert lo == i && hi == i + 2 && merged == b by {
      assert gb[i] == Block(b.start, n, false) && gb[i + 1] == Block(b.start + n + H, b.size - n - H, true);
      assert 0 < i ==> gb[i - 1] == bs[i - 1];
    }
    assert gb[..i] + [merged] + gb[hi..] == bs by {
      assert gb[..i] == bs[..i] && gb[i + 2..] == bs[i + 1..];
      assert bs == bs[..i] + [b] + bs[i + 1..];
    }
  }

  lemma TakeThenRelease(bs: seq<Block>, i: nat)
    requires i < |bs| && bs[i].free
    requires 0 < i ==> !bs[i - 1].free
    requires i + 1 < |bs| ==> !bs[i + 1].free
    ensures Release(Take(bs, i), i) == bs
  {
    var gb := Take(bs, i);
    var lo, hi, merged := ReleaseShape(gb, i);
    assert lo == i && hi == i + 1 && merged == bs[i];
    assert gb[..lo] + [merged] + gb[hi..] == bs by {
      assert gb[..i] == bs[..i] && gb[i + 1..] == bs[i + 1..];
      assert bs == bs[..i] + [bs[i]] + bs[i + 1..];
    }
  }

  lemma FreeAt(m: MemState, p: nat, i: nat)
    requires p != 0 && 0 <= IndexOf(m.blocks, p) == i
    ensures Free(m, p) == Released(m, i)
  {
  }

  lemma MallocAt(m: MemState, size: nat)
    requires 0 < size < U32 && FirstFit(m.blocks, RoundUp8(size)) >= 0
    ensures Malloc(m, size) == (Granted(m, Alloc(m.blocks, RoundUp8(size))), Alloc(m.blocks, RoundUp8(size)).addr)
  {
  }

  /** Freeing the address kmalloc just returned restores the heap exactly: split and merge
      are inverse to each other. */
  lemma MallocFreeInverse(base: nat, m: MemState, size: nat)
    requires Sound(base, m) && size < U32
    requires Malloc(m, size).1 != 0
    ensures Free(Malloc(m, size).0, Malloc(m, size).1) == m
  {
    MallocAt(m, size);
    AllocThenFree(base, m, RoundUp8(size));
  }

  lemma AllocThenFree(base: nat, m: MemState, n: nat)
    requires Sound(base, m) && FirstFit(m.blocks, n) >= 0 && Alloc(m.blocks, n).addr != 0
    ensures Free(Granted(m, Alloc(m.blocks, n)), Alloc(m.blocks, n).addr) == m
  {
    AllocAddrIndex(base, m.blocks, n);
    GrantThenFree(m, n);
  }

  /** The core of MallocFreeInverse, with the layout facts already reduced to the index. */
  lemma GrantThenFree(m: MemState, n: nat)
    requires NoAdjacentFree(m.blocks) && m.used < U32 && FirstFit(m.blocks, n) >= 0
    requires Alloc(m.blocks, n).addr != 0
    requires IndexOf(Alloc(m.blocks, n).blocks, Alloc(m.blocks, n).addr) == FirstFit(m.blocks, n)
    ensures Free(Granted(m, Alloc(m.blocks, n)), Alloc(m.blocks, n).addr) == m
  {
    var i := FirstFit(m.blocks, n);
    var g := Alloc(m.blocks, n);
    FreeAt(Granted(m, g), g.addr, i);
    AllocReleaseInverse(m.blocks, n);
    ReleaseGranted(m, g, i);
  }

  /** Releasing the granted block undoes the grant, heap_used included, once the block list
      is known to come back. */
  lemma ReleaseGranted(m: MemState, g: Grant, i: nat)
    requires m.used < U32 && i < |g.blocks| && g.blocks[i].size == g.taken
    requires Release(g.blocks, i) == m.blocks
    ensures Released(Granted(m, g), i) == m
  {
    WrapUndo(m.used, g.taken);
  }

  /** Accounting kept by kmalloc: heap_used still equals the bytes of the blocks in use. */
  lemma MallocKeepsAccounted(base: nat, m: MemState, size: nat)
    requires Sound(base, m) && Accounted(m) && size < U32
    ensures Accounted(Malloc(m, size).0)
  {
    if size > 0 && FirstFit(m.blocks, RoundUp8(size)) >= 0 {
      var g := Alloc(m.blocks, RoundUp8(size));
      AllocUsedSum(m.blocks, RoundUp8(size));
      AllocKeepsLayout(base, m.blocks, RoundUp8(size));
      UsedPlusFree(base, g.blocks);
    }
  }

  /** Accounting kept by kfree of a block in use. */
  lemma FreeKeepsAccounted(base: nat, m: MemState, p: nat)
    requires Sound(base, m) && Accounted(m)
    requires p == 0 || IndexOf(m.blocks, p) < 0 || !m.blocks[IndexOf(m.blocks, p)].free
    ensures Accounted(Free(m, p))
  {
    var i := IndexOf(m.blocks, p);
    if p != 0 && i >= 0 {
      ReleaseUsedSum(m.blocks, i);
    }
  }

  /** Freeing the start of a block that is already free leaves every block as it was but
      still subtracts the block's size from heap_used, so the accounting drifts. */
  lemma DoubleFreeMiscounts(base: nat, m: MemState, p: nat)
    requires Sound(base, m) && p != 0
    requires IndexOf(m.blocks, p) >= 0 && m.blocks[IndexOf(m.blocks, p)].free
    ensures Free(m, p).blocks == m.blocks
    ensures Free(m, p).used == Wrap(m.used - m.blocks[IndexOf(m.blocks, p)].size)
  {
    ReleaseFreeBlock(m.blocks, IndexOf(m.blocks, p));
  }

  /** free_stack undoes allocate_stack for a pid that had no stack before. */
  lemma StackAllocFreeInverse(base: nat, m: MemState, pid: int)
    requires Sound(base, m) && StackIndex(m.stacks, pid) < 0
    requires StackAlloc(m, pid).1 != 0
    ensures StackFree(StackAlloc(m, pid).0, pid) == m
  {
    MallocFreeInverse(base, m, STACK_SIZE);
    RecordedThenFree(Malloc(m, STACK_SIZE).0, Malloc(m, STACK_SIZE).1, pid);
  }

  /** free_stack of a pid recorded last, and nowhere else, frees its block and drops the record. */
  lemma RecordedThenFree(m: MemState, addr: nat, pid: int)
    requires StackIndex(m.stacks, pid) < 0
    ensures StackFree(Recorded(m, addr, pid), pid) == Free(m, addr)
  {
    var r := Recorded(m, addr, pid);
    assert StackIndex(r.stacks, pid) == |m.stacks| by {
      assert forall k :: 0 <= k < |m.stacks| ==> r.stacks[k] == m.stacks[k];
    }
    assert Seqs.RemoveAt(r.stacks, |m.stacks|) == m.stacks;
    FreeIgnoresStacks(m, r.stacks, addr);
  }

  lemma FreeIgnoresStacks(m: MemState, st: seq<StackRecord>, p: nat)
    ensures Free(m.(stacks := st), p) == Free(m, p).(stacks := st)
  {
  }

  lemma StackAllocKeepsSound(base: nat, m: MemState, pid: int)
    requires Sound(base, m)
    ensures Sound(base, StackAlloc(m, pid).0)
    ensures |StackAlloc(m, pid).0.stacks| <= |m.stacks| + 1
  {
    MallocKeepsSound(base, m, STACK_SIZE);
  }

  lemma StackFreeKeepsSound(base: nat, m: MemState, pid: int)
    requires Sound(base, m)
    ensures Sound(base, StackFree(m, pid))
    ensures |StackFree(m, pid).stacks| <= |m.stacks|
  {
    var i := StackIndex(m.stacks, pid);
    if i >= 0 {
      FreeKeepsSound(base, m, m.stacks[i].base);
    }
  }

  /** The first-fit loop's exit condition determines FirstFit. */
  lemma FirstFitAt(bs: seq<Block>, size: nat, k: nat)
    requires k <= |bs| && forall j :: 0 <= j < k ==> !Fits(bs[j], size)
    requires k < |bs| ==> Fits(bs[k], size)
    ensures FirstFit(bs, size) == if k < |bs| then k else -1
  {
  }

  /** The search loop of kfree determines IndexOf. */
  lemma IndexOfAt(bs: seq<Block>, p: nat, k: nat)
    requires k <= |bs| && forall j :: 0 <= j < k ==> bs[j].start != p
    requires k < |bs| ==> bs[k].start == p
    ensures IndexOf(bs, p) == if k < |bs| then k else -1
  {
  }

  /** The search loop of free_stack determines StackIndex. */
  lemma StackIndexAt(st: seq<StackRecord>, pid: int, k: nat)
    requires k <= |st| && forall j :: 0 <= j < k ==> st[j].pid != pid
    requires k < |st| ==> st[k].pid == pid
    ensures StackIndex(st, pid) == if k < |st| then k else -1
  {
  }

  /** Every block lies inside the arena, after its own header. */
  lemma BlockInArena(base: nat, bs: seq<Block>, i: nat)
    requires Layout(base, bs) && i < |bs|
    ensures base + H <= bs[i].start && bs[i].start + bs[i].size <= base + HEAP_SIZE
  {
    var last := |bs| - 1;
    if 0 < i {
      StartsIncrease(bs, 0, i);
    }
    if i < last {
      assert bs[i + 1].start == NextStart(bs[i]);
      if i + 1 < last {
        StartsIncrease(bs, i + 1, last);
      }
    }
  }

  /** kmalloc returns NULL only with nothing changed, and otherwise an address inside the
      arena with the whole rounded request before the arena's end. */
  lemma MallocInArena(base: nat, m: MemState, size: nat)
    requires Sound(base, m) && size < U32
    ensures Malloc(m, size).1 == 0 ==> Malloc(m, size).0 == m
    ensures Malloc(m, size).1 != 0 ==>
      base + H <= Malloc(m, size).1 && Malloc(m, size).1 + RoundUp8(size) <= base + HEAP_SIZE
  {
    if size > 0 && FirstFit(m.blocks, RoundUp8(size)) >= 0 {
      var i := FirstFit(m.blocks, RoundUp8(size));
      BlockInArena(base, m.blocks, i);
      assert Malloc(m, size).1 == m.blocks[i].start;
    }
  }

  /** The stack top allocate_stack returns is the end of a block inside the arena, so the
      uint32 sum in the C code does not wrap; a failed allocate_stack changes nothing. */
  lemma StackTopInArena(base: nat, m: MemState, pid: int)
    requires Sound(base, m)
    ensures StackAlloc(m, pid).1 == 0 ==> StackAlloc(m, pid).0 == m
    ensures StackAlloc(m, pid).1 != 0 ==>
      base + H + STACK_SIZE <= StackAlloc(m, pid).1 <= base + HEAP_SIZE
  {
    MallocInArena(base, m, STACK_SIZE);
  }

  /** A request within eight bytes of 2^32 rounds to 0, so kmalloc hands out the first free
      block, split down to a zero-byte block when it is large enough, instead of NULL. */
  lemma HugeRequestRoundsToZero(base: nat, m: MemState, size: nat)
    requires Sound(base, m) && size < U32 && size + 7 >= U32
    requires exists k :: 0 <= k < |m.blocks| && m.blocks[k].free
    ensures Malloc(m, size).1 != 0
    ensures Malloc(m, size).1 == m.blocks[FirstFit(m.blocks, 0)].start
    ensures m.blocks[FirstFit(m.blocks, 0)].size > H + SPLIT_SLACK ==>
      Malloc(m, size).0.blocks[FirstFit(m.blocks, 0)].size == 0
  {
    var k :| 0 <= k < |m.blocks| && m.blocks[k].free;
    assert Fits(m.blocks[k], 0);
    var i := FirstFit(m.blocks, 0);
    assert m.blocks[i].start >= base + H by {
      if i > 0 {
        StartsIncrease(m.blocks, 0, i);
      }
    }
  }

  // ---------------------------------------------------------------- memory_init

  /** The state memory_init leaves: one free block spanning the arena, nothing used, no stacks. */
  function Init(base: nat): (m: MemState)
  {
    MemState([Block(base + H, HEAP_SIZE - H, true)], 0, [])
  }

  lemma InitSound(base: nat)
    ensures Sound(base, Init(base)) && Accounted(Init(base))
    ensures FreeSum(Init(base).blocks) == HEAP_SIZE - H
  {
  }

  // ---------------------------------------------------------------- the allocator's globals

  /**
   * The globals of memory.c: the block list (free_list), heap_used, the stacks table
   * and stack_count, over the arena that starts at base.
   */
  class Heap {
    const base: nat
    var blocks: seq<Block>
    var used: nat
    const stacks: array<StackRecord>
    var stackCount: nat

    ghost predicate Valid()
      reads this, stacks
    {
      && base + HEAP_SIZE < U32
      && stacks.Length == MAX_BLOCKS && stackCount <= MAX_BLOCKS
      && Layout(base, blocks) && NoAdjacentFree(blocks) && used < U32
    }

    /** The allocator's globals as a value: the live stack records are stacks[..stack_count]. */
    ghost function State(): MemState
      reads this, stacks
    {
      MemState(blocks, used, stacks[..if stackCount <= stacks.Length then stackCount else 0])
    }

    /** memory_init: one free block spans the arena, nothing is used and no stack is recorded.
        The arena starts at base, the page-aligned end of the kernel image. */
    constructor (base: nat)
      requires base + HEAP_SIZE < U32
      ensures Valid() && fresh(stacks)
      ensures this.base == base && State() == Init(base)
    {
      this.base := base;
      blocks := [Block(base + H, HEAP_SIZE - H, true)];
      used := 0;
      stacks := new StackRecord[MAX_BLOCKS](_ => StackRecord(0, 0, 0));
      stackCount := 0;
    }

    /** kmalloc: round the request up to a multiple of 8, search first fit, take the block. */
    method Kmalloc(size: nat) returns (p: nat)
      requires Valid() && size < U32
      modifies this
      ensures (State(), p) == Malloc(old(State()), size)
      ensures Valid()
    {
      if size == 0 {
        return 0;
      }
      var n := (size + 7) % 0x1_0000_0000 / 8 * 8;
      var k := FindFit(n);
      if k < 0 {
        return 0;
      }
      MallocAt(State(), size);
      MallocKeepsSound(base, State(), size);
      p := TakeBlock(k, n);
    }

    /** The walk of kmalloc down the block list: the first free block of at least size bytes. */
    method FindFit(size: nat) returns (k: int)
      ensures k == FirstFit(blocks, size)
    {
      k := 0;
      while k < |blocks|
        invariant 0 <= k <= |blocks|
        invariant forall j :: 0 <= j < k ==> !Fits(blocks[j], size)
      {
        if blocks[k].free && blocks[k].size >= size {
          FirstFitAt(blocks, size, k);
          return;
        }
        k := k + 1;
      }
      FirstFitAt(blocks, size, k);
      k := -1;
    }

    /** The body of kmalloc once the first fitting block k is found: split it when the rest
        is worth keeping, mark it used and add its size to heap_used. */
    method TakeBlock(k: nat, n: nat) returns (p: nat)
      requires FirstFit(blocks, n) == k >= 0
      modifies this
      ensures stackCount == old(stackCount)
      ensures State() == Granted(old(State()), Alloc(old(blocks), n)) && p == Alloc(old(blocks), n).addr
    {
      var b := blocks[k];
      var bs;
      if b.size > n + H + SPLIT_SLACK {
        bs := blocks[..k] + [Block(b.start, n, false), Block(b.start + n + H, b.size - n - H, true)] + blocks[k + 1..];
      } else {
        bs := blocks[k := b.(free := false)];
      }
      assert bs == Alloc(blocks, n).blocks;
      blocks, used := bs, (used + bs[k].size) % 0x1_0000_0000;
      return b.start;
    }

    /** kfree: find the block that starts at p and release it. */
    method Kfree(p: nat)
      requires Valid()
      modifies this
      ensures State() == Free(old(State()), p)
      ensures Valid()
    {
      if p == 0 {
        return;
      }
      var k := FindBlock(p);
      if k < 0 {
        return;
      }
      ghost var m0 := State();
      FreeKeepsSound(base, m0, p);
      FreeAt(m0, p, k);
      ReleaseBlock(k);
      assert State() == Free(m0, p);
    }

    /** The walk of kfree down the block list: the block that starts at p. */
    method FindBlock(p: nat) returns (k: int)
      ensures k == IndexOf(blocks, p)
    {
      k := 0;
      while k < |blocks|
        invariant 0 <= k <= |blocks|
        invariant forall j :: 0 <= j < k ==> blocks[j].start != p
      {
        if blocks[k].start == p {
          IndexOfAt(blocks, p, k);
          return;
        }
        k := k + 1;
      }
      IndexOfAt(blocks, p, k);
      k := -1;
    }

    /** The body of kfree once block k is found: mark it free, take its size off heap_used,
        then coalesce with the next and the previous block. */
    method ReleaseBlock(k: nat)
      requires k < |blocks|
      modifies this
      ensures stackCount == old(stackCount)
      ensures State() == Released(old(State()), k)
    {
      var bs := blocks[k := blocks[k].(free := true)];
      var u := (used - bs[k].size) % 0x1_0000_0000;
      if k + 1 < |bs| && bs[k + 1].free {
        bs := bs[..k] + [bs[k].(size := bs[k].size + H + bs[k + 1].size)] + bs[k + 2..];
      }
      assert bs == MergeNext(MarkFree(blocks, k), k);
      if 0 < k && bs[k - 1].free {
        bs := bs[..k - 1] + [bs[k - 1].(size := bs[k - 1].size + H + bs[k].size)] + bs[k + 1..];
      }
      assert bs == Release(blocks, k);
      blocks, used := bs, u;
    }

    /** allocate_stack: returns the stack top, or 0 when the table is full or kmalloc fails. */
    method AllocateStack(pid: int) returns (top: nat)
      requires Valid()
      modifies this, stacks
      ensures (State(), top) == StackAlloc(old(State()), pid)
      ensures Valid()
    {
      ghost var m0 := State();
      StackAllocKeepsSound(base, m0, pid);
      if stackCount >= MAX_BLOCKS {
        return 0;
      }
      var addr := Kmalloc(STACK_SIZE);
      if addr == 0 {
        return 0;
      }
      ghost var m1 := State();
      stacks[stackCount] := StackRecord(addr, STACK_SIZE, pid);
      stackCount := stackCount + 1;
      assert stacks[..stackCount] == m1.stacks + [StackRecord(addr, STACK_SIZE, pid)];
      assert State() == Recorded(m1, addr, pid);
      return addr + STACK_SIZE;
    }

    /** free_stack: free the first record of pid and close the gap in the table. */
    method FreeStack(pid: int)
      requires Valid()
      modifies this, stacks
      ensures State() == StackFree(old(State()), pid)
      ensures Valid()
    {
      ghost var m0 := State();
      StackFreeKeepsSound(base, m0, pid);
      var i := FindStack(pid);
      if i < 0 {
        return;
      }
      var b := stacks[i].base;
      assert b == m0.stacks[i].base;
      Kfree(b);
      ghost var m1 := State();
      DropStack(i);
      assert State() == MemState(m1.blocks, m1.used, Seqs.RemoveAt(m0.stacks, i));
    }

    /** The search loop of free_stack: the first record of pid. */
    method FindStack(pid: int) returns (i: int)
      requires stackCount <= stacks.Length
      ensures i == StackIndex(stacks[..stackCount], pid)
    {
      i := 0;
      while i < stackCount
        invariant 0 <= i <= stackCount
        invariant forall k :: 0 <= k < i ==> stacks[k].pid != pid
      {
        if stacks[i].pid == pid {
          StackIndexAt(stacks[..stackCount], pid, i);
          return;
        }
        i := i + 1;
      }
      StackIndexAt(stacks[..stackCount], pid, i);
      i := -1;
    }

    /** The shift loop of free_stack: records after i move down one place. */
    method DropStack(i: nat)
      requires stackCount <= stacks.Length && i < stackCount
      modifies this, stacks
      ensures blocks == old(blocks) && used == old(used)
      ensures stackCount == old(stackCount) - 1
      ensures stacks[..stackCount] == Seqs.RemoveAt(old(stacks[..stackCount]), i)
    {
      ghost var st := stacks[..stackCount];
      var j := i;
      while j < stackCount - 1
        invariant i <= j <= stackCount - 1
        invariant forall k :: 0 <= k < j ==> stacks[k] == Seqs.RemoveAt(st, i)[k]
        invariant forall k :: j <= k < stackCount ==> stacks[k] == st[k]
        modifies stacks
      {
        stacks[j] := stacks[j + 1];
        j := j + 1;
      }
      stackCount := stackCount - 1;
    }

    /** get_free_memory: HEAP_SIZE - heap_used. While heap_used is accounted, that is every
        free byte plus every header, the first one included. */
    function FreeMemory(): (r: nat)
      reads this, stacks
      requires Valid()
      ensures r == Wrap(HEAP_SIZE - used)
      ensures Accounted(State()) ==> r == FreeSum(blocks) + H * |blocks|
    {
      UsedPlusFree(base, blocks);
      (HEAP_SIZE - used) % 0x1_0000_0000
    }

    /** get_total_memory: the arena size, which the blocks and their headers cover exactly. */
    function TotalMemory(): (r: nat)
      reads this, stacks
      requires Valid()
      ensures r == Footprint(blocks)
    {
      Conservation(base, blocks);
      HEAP_SIZE
    }
  }
}
