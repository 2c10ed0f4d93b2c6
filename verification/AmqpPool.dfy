/** The page allocator behind decoded frames and messages (amqp_mem.c). */
module AmqpPool {
  import opened Bytes

  /** size_t arithmetic: adding 7 wraps at 2^64, and the mask clears three bits. */
  function RoundUp(amount: nat): (r: nat)
    ensures r % 8 == 0
    ensures amount <= 0x1_0000_0000_0000_0000 - 8 ==> amount <= r < amount + 8
  {
    var sum := (amount + 7) % 0x1_0000_0000_0000_0000;
    sum - sum % 8
  }

  /** The result is as long as the request exactly when the addition did not wrap. */
  lemma LongEnough(amount: nat)
    requires amount < 0x1_0000_0000_0000_0000
    ensures RoundUp(amount) >= amount <==> amount <= 0x1_0000_0000_0000_0000 - 8
  {
    if amount > 0x1_0000_0000_0000_0000 - 8 {
      assert (amount + 7) % 0x1_0000_0000_0000_0000 == amount + 7 - 0x1_0000_0000_0000_0000;
    }
  }

  /** The stretch of memory an allocation hands out. */
  datatype Region = Region(block: array<byte>, offset: nat, size: nat)

  predicate Apart(r: Region, s: Region) {
    r.block != s.block || r.offset + r.size <= s.offset || s.offset + s.size <= r.offset
  }

  predicate Inside(r: Region) {
    r.offset % 8 == 0 && r.offset + r.size <= r.block.Length
  }

  /** Where an allocator that never runs out puts the next request of a page or less: page number and offset. */
  datatype Cursor = Cursor(pages: nat, used: nat)

  function Advance(c: Cursor, pagesize: nat, size: nat): Cursor {
    if c.pages > 0 && c.used + size <= pagesize then Cursor(c.pages, c.used + size) else Cursor(c.pages + 1, size)
  }

  class Pool {
    var pagesize: nat
    var pages: seq<array<byte>>
    var largeBlocks: seq<array<byte>>
    var nextPage: nat
    var allocBlock: array?<byte>
    var allocUsed: nat
    /** What was handed out since the last recycling. */
    ghost var live: seq<Region>

    /** Everything handed out is in bounds, aligned and pairwise apart, and the room still free is apart from it. */
    ghost predicate Valid()
      reads this
    {
      && 0 < pagesize <= 0x8000_0000_0000_0000 && nextPage <= |pages| && allocUsed <= pagesize && allocUsed % 8 == 0
      && (forall i | 0 <= i < |pages| :: pages[i].Length == pagesize)
      && (forall i, j | 0 <= i < j < |pages| :: pages[i] != pages[j])
      && (forall i | 0 <= i < |live| :: Inside(live[i]))
      && (forall i, j | 0 <= i < j < |live| :: Apart(live[i], live[j]))
      && (forall i, p | 0 <= i < |live| && nextPage <= p < |pages| :: live[i].block != pages[p])
      && (allocBlock != null ==>
            && allocBlock.Length == pagesize
            && (forall p | nextPage <= p < |pages| :: pages[p] != allocBlock)
            && (forall i | 0 <= i < |live| :: live[i].block == allocBlock ==> live[i].offset + live[i].size <= allocUsed))
    }

    /** Holds unless recording a block failed. */
    ghost predicate InPages()
      reads this
    {
      allocBlock != null ==> 0 < nextPage <= |pages| && allocBlock == pages[nextPage - 1]
    }

    /** Without a current block nothing fits. */
    ghost function Position(): Cursor
      reads this
    {
      if allocBlock == null then Cursor(nextPage, pagesize + 1) else Cursor(nextPage, allocUsed)
    }

    /** init_amqp_pool */
    constructor (size: nat)
      requires size <= 0x8000_0000_0000_0000
      ensures Valid() && InPages() && live == [] && pages == [] && nextPage == 0 && allocBlock == null
      ensures pagesize == if size == 0 then 4096 else size
    {
      pagesize := if size == 0 then 4096 else size;
      pages, largeBlocks, live := [], [], [];
      nextPage, allocUsed, allocBlock := 0, 0, null;
    }

    /** recycle_amqp_pool: the pages stay. */
    method Recycle()
      requires Valid()
      modifies this
      ensures Valid() && InPages() && live == [] && largeBlocks == []
      ensures pages == old(pages) && pagesize == old(pagesize) && nextPage == 0 && allocBlock == null
    {
      largeBlocks, live := [], [];
      nextPage, allocUsed, allocBlock := 0, 0, null;
    }

    /** empty_amqp_pool */
    method Clear()
      requires Valid()
      modifies this
      ensures Valid() && live == [] && largeBlocks == [] && pages == []
    {
      Recycle();
      pages := [];
    }

    /** An allocation of more than a page gets a block of its own. */
    method AllocLarge(size: nat, calloc: bool, record: bool) returns (r: Option<Region>)
      requires Valid()
      modifies this
      ensures Valid() && r.Some? == (calloc && record)
      ensures r.Some? ==> fresh(r.value.block) && r.value.offset == 0 && r.value.size == size
      ensures live == if r.Some? then old(live) + [r.value] else old(live)
      ensures pages == old(pages) && pagesize == old(pagesize) && nextPage == old(nextPage)
      ensures allocBlock == old(allocBlock) && allocUsed == old(allocUsed)
    {
      if !calloc {
        return None;
      }
      var result := new byte[size](i => 0);
      if !record {
        return None;
      }
      largeBlocks := largeBlocks + [result];
      r := Some(Region(result, 0, size));
      live := live + [r.value];
    }

    /** The next bytes of the current page. */
    method Bump(size: nat) returns (r: Region)
      requires Valid() && allocBlock != null && size % 8 == 0 && allocUsed + size <= pagesize
      modifies this`allocUsed, this`live
      ensures Valid() && r == Region(old(allocBlock), old(allocUsed), size) && live == old(live) + [r]
      ensures allocUsed == old(allocUsed) + size
    {
      BumpKeeps(size);
      r := Region(allocBlock, allocUsed, size);
      hide Inside, Apart;
      allocUsed := allocUsed + size;
      live := live + [r];
    }

    lemma BumpKeeps(size: nat)
      requires Valid() && allocBlock != null && size % 8 == 0 && allocUsed + size <= pagesize
      ensures var r := Region(allocBlock, allocUsed, size);
              Inside(r) && (allocUsed + size) % 8 == 0 && forall i | 0 <= i < |live| :: Apart(live[i], r)
    {
    }

    /** A page kept from before the last recycling. */
    method KeptPage(size: nat) returns (r: Region)
      requires Valid() && nextPage < |pages| && size % 8 == 0 && size <= pagesize
      modifies this`nextPage, this`allocBlock, this`allocUsed, this`live
      ensures Valid() && InPages() && r == Region(pages[old(nextPage)], 0, size) && live == old(live) + [r]
      ensures nextPage == old(nextPage) + 1 && allocUsed == size && allocBlock == r.block
    {
      allocBlock := pages[nextPage];
      nextPage := nextPage + 1;
      allocUsed := size;
      r := Region(allocBlock, 0, size);
      live := live + [r];
    }

    /** A page from the system; a block that cannot be recorded stays current all the same. */
    method NewPage(size: nat, calloc: bool, record: bool) returns (r: Option<Region>)
      requires Valid() && nextPage == |pages| && size % 8 == 0 && size <= pagesize
      modifies this`pages, this`nextPage, this`allocBlock, this`allocUsed, this`live
      ensures Valid() && r.Some? == (calloc && record)
      ensures r.None? ==> live == old(live) && pages == old(pages)
      ensures !calloc ==> allocBlock == null
      ensures r.Some? ==> InPages() && pages == old(pages) + [r.value.block] && fresh(r.value.block)
      ensures r.Some? ==> r.value.offset == 0 && r.value.size == size && live == old(live) + [r.value]
      ensures r.Some? ==> nextPage == |pages| && allocUsed == size && allocBlock == r.value.block
    {
      if !calloc {
        allocBlock := null;
        return None;
      }
      allocBlock := new byte[pagesize](i => 0);
      if !record {
        return None;
      }
      pages := pages + [allocBlock];
      nextPage := |pages|;
      allocUsed := size;
      r := Some(Region(allocBlock, 0, size));
      live := live + [r.value];
    }

    /** amqp_pool_alloc; calloc and record tell whether the system's allocations of a block and of a longer block list
        succeed. */
    method Alloc(amount0: nat, calloc: bool, record: bool) returns (r: Option<Region>)
      requires Valid() && amount0 < 0x1_0000_0000_0000_0000
      modifies this
      ensures Valid() && pagesize == old(pagesize) && old(pages) <= pages
      ensures r.Some? ==> r.value.size == RoundUp(amount0) && live == old(live) + [r.value]
      ensures r.None? ==> live == old(live)
      ensures amount0 > 0 && calloc && record ==> r.Some?
      ensures old(InPages()) && record ==> InPages()
      ensures old(InPages()) && calloc && record && 0 < amount0 && RoundUp(amount0) <= pagesize ==>
                && Position() == Advance(old(Position()), pagesize, RoundUp(amount0))
                && 0 < Position().pages == nextPage <= |pages| && r.value.block == pages[nextPage - 1]
                && r.value.offset + r.value.size == Position().used
                && |pages| == if nextPage > |old(pages)| then nextPage else |old(pages)|
    {
      if amount0 == 0 {
        return None;
      }
      var amount := RoundUp(amount0);
      if amount > pagesize {
        r := AllocLarge(amount, calloc, record);
        return;
      }
      if allocBlock != null {
        if allocUsed + amount <= pagesize {
          var region := Bump(amount);
          return Some(region);
        }
      }
      if nextPage >= |pages| {
        r := NewPage(amount, calloc, record);
      } else {
        var region := KeptPage(amount);
        r := Some(region);
      }
    }
  }

  /** Where a run of requests goes from a given position. */
  function Layout(c: Cursor, pagesize: nat, requests: seq<nat>): Cursor {
    if requests == [] then c
    else Advance(Layout(c, pagesize, requests[..|requests| - 1]), pagesize, RoundUp(requests[|requests| - 1]))
  }

  lemma LayoutNext(c: Cursor, pagesize: nat, requests: seq<nat>, i: nat)
    requires i < |requests|
    ensures Layout(c, pagesize, requests[..i + 1]) == Advance(Layout(c, pagesize, requests[..i]), pagesize, RoundUp(requests[i]))
  {
    assert requests[..i + 1][..i] == requests[..i];
  }

  /** The pages only ever move forward, one at a time. */
  lemma LayoutPages(c: Cursor, pagesize: nat, requests: seq<nat>, i: nat)
    requires i <= |requests|
    ensures c.pages <= Layout(c, pagesize, requests[..i]).pages <= Layout(c, pagesize, requests).pages
    decreases |requests|
  {
    if i < |requests| {
      var init := requests[..|requests| - 1];
      assert init[..i] == requests[..i];
      LayoutPages(c, pagesize, init, i);
    } else {
      assert requests[..i] == requests;
      if requests != [] {
        LayoutPages(c, pagesize, requests[..|requests| - 1], |requests| - 1);
      }
    }
  }

  predicate Small(pagesize: nat, requests: seq<nat>) {
    forall i | 0 <= i < |requests| :: 0 < requests[i] < 0x1_0000_0000_0000_0000 && RoundUp(requests[i]) <= pagesize
  }

  function Start(pagesize: nat): Cursor {
    Cursor(0, pagesize + 1)
  }

  /** r is where request i belongs, in a pool with these pages that started empty. */
  ghost predicate Placed(r: Region, pages: seq<array<byte>>, pagesize: nat, requests: seq<nat>, i: nat)
    requires i < |requests|
  {
    var c := Layout(Start(pagesize), pagesize, requests[..i + 1]);
    && 0 < c.pages <= |pages|
    && r.size == RoundUp(requests[i]) && r.block == pages[c.pages - 1] && r.offset + r.size == c.used
  }

  ghost predicate AllPlaced(got: seq<Region>, pages: seq<array<byte>>, pagesize: nat, requests: seq<nat>) {
    |got| <= |requests| && forall i | 0 <= i < |got| :: Placed(got[i], pages, pagesize, requests, i)
  }

  /** The pool after serving these requests from the start. */
  ghost predicate Served(pool: Pool, requests: seq<nat>)
    reads pool
  {
    && pool.Valid() && pool.InPages() && pool.Position() == Layout(Start(pool.pagesize), pool.pagesize, requests)
  }

  method ServeOne(pool: Pool, requests: seq<nat>, i: nat) returns (region: Region)
    requires i < |requests| && Small(pool.pagesize, requests) && Served(pool, requests[..i])
    modifies pool
    ensures pool.pagesize == old(pool.pagesize) && Served(pool, requests[..i + 1])
    ensures pool.live == old(pool.live) + [region] && old(pool.pages) <= pool.pages
    ensures Placed(region, pool.pages, pool.pagesize, requests, i)
    ensures var n := Layout(Start(pool.pagesize), pool.pagesize, requests[..i + 1]).pages;
            |pool.pages| == if n > |old(pool.pages)| then n else |old(pool.pages)|
  {
    hide RoundUp, Advance, Pool.Valid;
    LayoutNext(Start(pool.pagesize), pool.pagesize, requests, i);
    var r := pool.Alloc(requests[i], true, true);
    region := r.value;
  }

  /** Requests of a page or less, served one after the other from an empty position. */
  method Serve(pool: Pool, requests: seq<nat>) returns (got: seq<Region>)
    requires Served(pool, []) && Small(pool.pagesize, requests)
    modifies pool
    ensures pool.Valid() && pool.pagesize == old(pool.pagesize)
    ensures |got| == |requests| && pool.live == old(pool.live) + got && old(pool.pages) <= pool.pages
    ensures AllPlaced(got, pool.pages, pool.pagesize, requests)
    ensures var n := Layout(Start(pool.pagesize), pool.pagesize, requests).pages;
            |pool.pages| == if n > |old(pool.pages)| then n else |old(pool.pages)|
  {
    hide Layout, Small, Placed, Pool.Valid, Start;
    got := [];
    assert requests[..0] == [];
    LayoutStart(pool.pagesize);
    for i := 0 to |requests|
      invariant pool.pagesize == old(pool.pagesize) && Served(pool, requests[..i])
      invariant |got| == i && pool.live == old(pool.live) + got && old(pool.pages) <= pool.pages
      invariant AllPlaced(got, pool.pages, pool.pagesize, requests)
      invariant var n := Layout(Start(pool.pagesize), pool.pagesize, requests[..i]).pages;
                |pool.pages| == if n > |old(pool.pages)| then n else |old(pool.pages)|
    {
      ghost var before := pool.pages;
      LayoutPages(Start(pool.pagesize), pool.pagesize, requests[..i + 1], i);
      assert requests[..i + 1][..i] == requests[..i];
      var region := ServeOne(pool, requests, i);
      StillPlaced(got, before, pool.pages, pool.pagesize, requests);
      got := got + [region];
    }
    assert requests[..|requests|] == requests;
  }

  lemma LayoutStart(pagesize: nat)
    ensures Layout(Start(pagesize), pagesize, []).pages == 0
  {
  }

  lemma StillPlaced(got: seq<Region>, before: seq<array<byte>>, pages: seq<array<byte>>, pagesize: nat, requests: seq<nat>)
    requires AllPlaced(got, before, pagesize, requests) && before <= pages
    ensures AllPlaced(got, pages, pagesize, requests)
  {
  }

  lemma PlacedOnce(got: seq<Region>, again: seq<Region>, pages: seq<array<byte>>, pagesize: nat, requests: seq<nat>)
    requires AllPlaced(got, pages, pagesize, requests) && AllPlaced(again, pages, pagesize, requests)
    requires |got| == |again|
    ensures got == again
  {
    hide Layout;
    forall i | 0 <= i < |got| ensures got[i] == again[i] {
      assert Placed(got[i], pages, pagesize, requests, i) && Placed(again[i], pages, pagesize, requests, i);
    }
  }

  /** Replaying requests after a recycling gives the same addresses and takes no page from the system. */
  method Replay(pool: Pool, requests: seq<nat>) returns (first: seq<Region>, again: seq<Region>, ghost pages: seq<array<byte>>)
    requires Served(pool, []) && Small(pool.pagesize, requests)
    modifies pool
    ensures pool.Valid() && |first| == |requests| && again == first && pool.live == again
    ensures old(pool.pages) <= pages == pool.pages
    ensures AllPlaced(first, pages, pool.pagesize, requests)
  {
    first := Serve(pool, requests);
    pages := pool.pages;
    pool.Recycle();
    hide Layout, Small, Placed, AllPlaced, Pool.Valid;
    StartsEmpty(pool);
    again := Serve(pool, requests);
    PlacedOnce(first, again, pages, pool.pagesize, requests);
  }

  lemma StartsEmpty(pool: Pool)
    requires pool.Valid() && pool.InPages() && pool.nextPage == 0 && pool.allocBlock == null
    ensures Served(pool, [])
  {
  }
}
