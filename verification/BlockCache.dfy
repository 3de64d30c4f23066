/** The mount's local cache of version contents, in fixed-size blocks. */
module BlockCache {
  import opened Bytes
  import opened Records

  const BLOCK_SIZE: nat := 1024 * 1024

  datatype Mode = Stream(budget: nat) | Mirror

  datatype Key = Key(node: NodeId, version: VersionId, index: nat)

  /** What a block occupies, and when it was last used: a number that only ever grows. */
  datatype Meta = Meta(size: nat, tick: nat)

  type Blocks = map<Key, Meta>

  type Files = map<Key, seq<byte>>

  /** The bytes of every version there ever was. */
  type Contents = (NodeId, VersionId) -> seq<byte>

  // ----- accounting -----

  ghost function Sum(blocks: Blocks): nat
    decreases |blocks|
  {
    if blocks == map[] then 0
    else
      var k :| k in blocks;
      assert |blocks - {k}| < |blocks| by { FewerBlocks(blocks, k); }
      blocks[k].size + Sum(blocks - {k})
  }

  lemma FewerBlocks(blocks: Blocks, k: Key)
    requires k in blocks
    ensures |blocks - {k}| < |blocks|
  {
    assert (blocks - {k}).Keys == blocks.Keys - {k};
    assert |blocks.Keys - {k}| < |blocks.Keys|;
  }

  lemma {:induction false} SumWithout(blocks: Blocks, k: Key)
    requires k in blocks
    ensures Sum(blocks) == blocks[k].size + Sum(blocks - {k})
    decreases |blocks|
  {
    var j :| j in blocks && Sum(blocks) == blocks[j].size + Sum(blocks - {j});
    if j != k {
      FewerBlocks(blocks, j);
      FewerBlocks(blocks, k);
      SumWithout(blocks - {j}, k);
      SumWithout(blocks - {k}, j);
      assert blocks - {j} - {k} == blocks - {k} - {j};
    }
  }

  lemma SumPut(blocks: Blocks, k: Key, m: Meta)
    ensures Sum(blocks[k := m]) == Sum(blocks - {k}) + m.size
    ensures k in blocks ==> Sum(blocks[k := m]) == Sum(blocks) - blocks[k].size + m.size
  {
    SumWithout(blocks[k := m], k);
    assert blocks[k := m] - {k} == blocks - {k};
    if k in blocks { SumWithout(blocks, k); }
  }

  /** No two blocks were last used at the same moment. */
  ghost predicate DistinctTicks(blocks: Blocks) {
    forall j, k :: j in blocks && k in blocks && blocks[j].tick == blocks[k].tick ==> j == k
  }

  ghost predicate TicksOk(blocks: Blocks, next: nat) {
    DistinctTicks(blocks) && forall k :: k in blocks ==> blocks[k].tick < next
  }

  // ----- eviction -----

  /** Oldest first. */
  ghost predicate ByAge(blocks: Blocks, keys: seq<Key>) {
    && (forall i :: 0 <= i < |keys| ==> keys[i] in blocks)
    && (forall i, j :: 0 <= i < j < |keys| ==> blocks[keys[i]].tick < blocks[keys[j]].tick)
  }

  ghost predicate OlderThanAll(blocks: Blocks, keys: seq<Key>, rest: set<Key>)
    requires ByAge(blocks, keys) && rest <= blocks.Keys
  {
    forall i, k :: 0 <= i < |keys| && k in rest ==> blocks[keys[i]].tick < blocks[k].tick
  }

  lemma OneOlder(blocks: Blocks, keys: seq<Key>, rest: set<Key>, k: Key)
    requires ByAge(blocks, keys) && rest <= blocks.Keys && OlderThanAll(blocks, keys, rest)
    requires k in rest && forall j :: j in rest && j != k ==> blocks[k].tick < blocks[j].tick
    ensures ByAge(blocks, keys + [k]) && OlderThanAll(blocks, keys + [k], rest - {k})
  {
  }

  /** All the blocks, oldest first. */
  method SortByAge(blocks: Blocks) returns (keys: seq<Key>)
    requires DistinctTicks(blocks)
    ensures ByAge(blocks, keys) && forall k :: k in blocks ==> k in keys
  {
    keys := [];
    var left := blocks.Keys;
    while left != {}
      invariant left <= blocks.Keys && ByAge(blocks, keys) && OlderThanAll(blocks, keys, left)
      invariant forall k :: k in blocks ==> k in left || k in keys
      decreases |left|
    {
      var k := Oldest(blocks, left);
      OneOlder(blocks, keys, left, k);
      keys := keys + [k];
      left := left - {k};
    }
  }

  method Oldest(blocks: Blocks, among: set<Key>) returns (k: Key)
    requires among != {} && among <= blocks.Keys && DistinctTicks(blocks)
    ensures k in among && forall j :: j in among && j != k ==> blocks[k].tick < blocks[j].tick
  {
    k :| k in among;
    var left := among - {k};
    while left != {}
      invariant k in among && left <= among && k !in left
      invariant forall j :: j in among && j !in left && j != k ==> blocks[k].tick < blocks[j].tick
      decreases |left|
    {
      var j :| j in left;
      left := left - {j};
      if blocks[j].tick < blocks[k].tick { k := j; }
    }
  }

  /** `left` is what remains once `victims` are gone. */
  ghost predicate Leaves(blocks: Blocks, victims: seq<Key>, left: Blocks) {
    && (forall k :: k in left <==> k in blocks && k !in victims)
    && (forall k :: k in left ==> left[k] == blocks[k])
  }

  /** The victims are older than everything that stays, enough to meet the budget and not one more. */
  ghost predicate Evicted(blocks: Blocks, budget: nat, victims: seq<Key>, left: Blocks) {
    && ByAge(blocks, victims) && Leaves(blocks, victims, left)
    && (forall i, k :: 0 <= i < |victims| && k in left ==> blocks[victims[i]].tick < left[k].tick)
    && Sum(left) <= budget
    && (victims != [] ==> Sum(left) + blocks[victims[|victims| - 1]].size > budget)
    && (Sum(blocks) <= budget ==> victims == [])
  }

  lemma NextVictim(blocks: Blocks, keys: seq<Key>, i: nat, left: Blocks)
    requires ByAge(blocks, keys) && i < |keys| && Leaves(blocks, keys[..i], left)
    ensures keys[i] in left && Leaves(blocks, keys[..i + 1], left - {keys[i]}) && left[keys[i]] == blocks[keys[i]]
    ensures keys[..i + 1] == keys[..i] + [keys[i]]
    ensures Sum(left) == blocks[keys[i]].size + Sum(left - {keys[i]})
  {
    assert keys[..i + 1] == keys[..i] + [keys[i]];
    assert forall j :: 0 <= j < i ==> keys[..i][j] == keys[j] && blocks[keys[j]].tick < blocks[keys[i]].tick;
    SumWithout(left, keys[i]);
  }

  lemma OldestGone(blocks: Blocks, keys: seq<Key>, i: nat, left: Blocks)
    requires ByAge(blocks, keys) && (forall k :: k in blocks ==> k in keys) && i <= |keys| && Leaves(blocks, keys[..i], left)
    ensures ByAge(blocks, keys[..i])
    ensures forall j, k :: 0 <= j < i && k in left ==> blocks[keys[..i][j]].tick < left[k].tick
    ensures i == |keys| ==> left == map[]
  {
    assert forall x :: 0 <= x < i ==> keys[..i][x] == keys[x];
    forall j, k | 0 <= j < i && k in left ensures blocks[keys[..i][j]].tick < left[k].tick {
      var at :| 0 <= at < |keys| && keys[at] == k;
    }
    if i == |keys| { assert keys[..i] == keys; }
  }

  /** The first `n` keys have gone, and one fewer would have been too few. */
  ghost predicate Dropped(blocks: Blocks, keys: seq<Key>, n: nat, left: Blocks, bytes: nat, budget: nat) {
    && n <= |keys| && Leaves(blocks, keys[..n], left) && bytes == Sum(left)
    && (n > 0 ==> keys[n - 1] in blocks && bytes + blocks[keys[n - 1]].size > budget)
  }

  lemma DropNext(blocks: Blocks, keys: seq<Key>, n: nat, left: Blocks, bytes: nat, budget: nat)
    requires ByAge(blocks, keys) && Dropped(blocks, keys, n, left, bytes, budget) && n < |keys| && bytes > budget
    ensures keys[n] in left && left[keys[n]].size <= bytes
    ensures Dropped(blocks, keys, n + 1, left - {keys[n]}, bytes - left[keys[n]].size, budget)
  {
    NextVictim(blocks, keys, n, left);
  }

  lemma NothingDropped(blocks: Blocks, keys: seq<Key>, bytes: nat, budget: nat)
    requires bytes == Sum(blocks)
    ensures Dropped(blocks, keys, 0, blocks, bytes, budget)
  {
  }

  method DropOne(ghost blocks: Blocks, keys: seq<Key>, n: nat, left: Blocks, bytes: nat, ghost budget: nat) returns (left': Blocks, bytes': nat)
    requires ByAge(blocks, keys) && Dropped(blocks, keys, n, left, bytes, budget) && n < |keys| && bytes > budget
    ensures Dropped(blocks, keys, n + 1, left', bytes', budget)
  {
    DropNext(blocks, keys, n, left, bytes, budget);
    left', bytes' := left - {keys[n]}, bytes - left[keys[n]].size;
  }

  /** Blocks go in order of age and no further than the budget asks; `n` keys went. */
  method DropOldest(blocks: Blocks, keys: seq<Key>, bytes: nat, budget: nat) returns (n: nat, left: Blocks, bytes': nat)
    requires ByAge(blocks, keys) && Dropped(blocks, keys, 0, blocks, bytes, budget)
    ensures Dropped(blocks, keys, n, left, bytes', budget) && (n == |keys| || bytes' <= budget)
  {
    n, left, bytes' := 0, blocks, bytes;
    for i := 0 to |keys|
      invariant n == i && Dropped(blocks, keys, i, left, bytes', budget)
    {
      if bytes' <= budget { break; }
      left, bytes' := DropOne(blocks, keys, i, left, bytes', budget);
      n := i + 1;
    }
  }

  method PickVictims(blocks: Blocks, bytes: nat, budget: nat) returns (victims: seq<Key>, left: Blocks, bytes': nat)
    requires bytes == Sum(blocks) && DistinctTicks(blocks)
    ensures Evicted(blocks, budget, victims, left) && bytes' == Sum(left)
  {
    if bytes <= budget { return [], blocks, bytes; }
    var keys := SortByAge(blocks);
    var n;
    NothingDropped(blocks, keys, bytes, budget);
    n, left, bytes' := DropOldest(blocks, keys, bytes, budget);
    victims := keys[..n];
    OldestGone(blocks, keys, n, left);
  }

  // ----- stitching -----

  function BlockOf(content: seq<byte>, bs: nat, i: nat): seq<byte> {
    Slice(content, i * bs, i * bs + bs)
  }

  /** The wanted window of a block, cut off at what the block holds. */
  function Wanted(block: seq<byte>, start: nat, offset: nat, end: nat): seq<byte>
    requires start <= end && offset <= end
  {
    block[Min(Max(offset - start, 0), |block|)..Min(end - start, |block|)]
  }

  lemma SliceCat(content: seq<byte>, a: nat, b: nat, c: nat)
    requires a <= b <= c
    ensures Slice(content, a, b) + Slice(content, b, c) == Slice(content, a, c)
  {
  }

  lemma WindowOf(content: seq<byte>, start: nat, bs: nat, from: nat, to: nat)
    requires start <= from <= to <= start + bs
    ensures var block := Slice(content, start, start + bs);
            block[Min(from - start, |block|)..Min(to - start, |block|)] == Slice(content, from, to)
  {
  }

  lemma WantedIs(content: seq<byte>, start: nat, bs: nat, offset: nat, end: nat)
    requires start <= end && offset <= end && offset < start + bs
    ensures Wanted(Slice(content, start, start + bs), start, offset, end) == Slice(content, Max(offset, start), Min(end, start + bs))
  {
    WindowOf(content, start, bs, Max(offset, start), Min(end, start + bs));
  }

  /** A read up to here, and the window of the block that starts here, is the read up to the next block. */
  lemma OneBlockMore(content: seq<byte>, start: nat, bs: nat, offset: nat, end: nat)
    requires start <= end && offset <= end && offset < start + bs
    ensures Slice(content, offset, Min(end, Max(offset, start))) + Wanted(Slice(content, start, start + bs), start, offset, end) ==
            Slice(content, offset, Min(end, start + bs))
  {
    WantedIs(content, start, bs, offset, end);
    SliceCat(content, offset, Max(offset, start), Min(end, start + bs));
  }

  /** Where the blocks of a read start. */
  lemma BlockStarts(bs: nat, offset: nat, size: nat, k: nat)
    requires bs > 0 && size > 0 && offset / bs <= k <= (offset + size - 1) / bs
    ensures 0 <= k * bs < offset + size && offset < k * bs + bs && (offset / bs) * bs <= offset
    ensures k == (offset + size - 1) / bs ==> offset + size <= k * bs + bs
  {
    DivMod(offset, bs);
    DivMod(offset + size - 1, bs);
    MulMono(offset / bs, k, bs);
    MulMono(k, (offset + size - 1) / bs, bs);
  }

  /** What a read has put together from the blocks before position `at`. */
  ghost function Upto(content: seq<byte>, offset: nat, end: nat, at: nat): seq<byte> {
    Slice(content, offset, Min(end, Max(offset, at)))
  }

  lemma UptoNext(content: seq<byte>, bs: nat, offset: nat, end: nat, at: nat)
    requires at <= end && offset <= end && offset < at + bs
    ensures Upto(content, offset, end, at) + Wanted(Slice(content, at, at + bs), at, offset, end) == Upto(content, offset, end, at + bs)
  {
    OneBlockMore(content, at, bs, offset, end);
  }

  lemma UptoEnds(content: seq<byte>, offset: nat, end: nat, from: nat, to: nat)
    requires from <= offset <= end <= to
    ensures Upto(content, offset, end, from) == [] && Upto(content, offset, end, to) == Slice(content, offset, end)
  {
  }

  /** What a read of `size` bytes has put together from the blocks before the `k`th. */
  ghost function Joined(content: seq<byte>, bs: nat, offset: nat, size: nat, k: nat): seq<byte> {
    Upto(content, offset, offset + size, k * bs)
  }

  lemma JoinedEnds(content: seq<byte>, bs: nat, offset: nat, size: nat, first: nat, last: nat)
    requires bs > 0 && size > 0 && first == offset / bs && last == (offset + size - 1) / bs
    ensures first <= last && Joined(content, bs, offset, size, first) == []
    ensures Joined(content, bs, offset, size, last + 1) == Slice(content, offset, offset + size)
  {
    DivMono(offset, offset + size - 1, bs);
    BlockStarts(bs, offset, size, first);
    BlockStarts(bs, offset, size, last);
    assert (last + 1) * bs == last * bs + bs;
    UptoEnds(content, offset, offset + size, first * bs, (last + 1) * bs);
  }

  lemma JoinedNext(content: seq<byte>, bs: nat, offset: nat, size: nat, k: nat, start: nat)
    requires start == k * bs && start <= offset + size && offset < start + bs
    ensures Joined(content, bs, offset, size, k) + Wanted(BlockOf(content, bs, k), start, offset, offset + size) ==
            Joined(content, bs, offset, size, k + 1)
  {
    assert (k + 1) * bs == start + bs;
    UptoNext(content, bs, offset, offset + size, start);
  }

  method Piece(block: seq<byte>, bs: nat, offset: nat, size: nat, k: nat,
               ghost content: seq<byte>) returns (piece: seq<byte>)
    requires bs > 0 && size > 0 && offset / bs <= k <= (offset + size - 1) / bs
    ensures block == BlockOf(content, bs, k) ==> Joined(content, bs, offset, size, k) + piece == Joined(content, bs, offset, size, k + 1)
  {
    BlockStarts(bs, offset, size, k);
    var start := k * bs;
    JoinedNext(content, bs, offset, size, k, start);
    piece := Wanted(block, start, offset, offset + size);
  }

  method Stitch(blocks: seq<seq<byte>>, bs: nat, offset: nat, size: nat, first: nat, last: nat,
                ghost content: seq<byte>) returns (out: seq<byte>)
    requires bs > 0 && size > 0 && first == offset / bs && last == (offset + size - 1) / bs && |blocks| == last - first + 1
    ensures (forall j :: 0 <= j < |blocks| ==> blocks[j] == BlockOf(content, bs, first + j)) ==>
              out == Slice(content, offset, offset + size)
  {
    out := [];
    JoinedEnds(content, bs, offset, size, first, last);
    for j := 0 to |blocks|
      invariant (forall i :: 0 <= i < j ==> blocks[i] == BlockOf(content, bs, first + i)) ==>
                  out == Joined(content, bs, offset, size, first + j)
    {
      var piece := Piece(blocks[j], bs, offset, size, first + j, content);
      out := out + piece;
    }
  }

  // ----- the cache -----

  datatype FetchError = FetchError(code: int)

  type Fetch = nat -> Result<(seq<byte>, bool), FetchError>

  /** Every block on disk is the block of the version it is named after. */
  ghost predicate Agrees(files: Files, bs: nat, truth: Contents) {
    forall k :: k in files ==> files[k] == BlockOf(truth(k.node, k.version), bs, k.index)
  }

  /** Fetched blocks marked as safe to keep come from the committed version. */
  ghost predicate Faithful(fetch: Fetch, bs: nat, content: seq<byte>) {
    forall i :: fetch(i).Ok? && fetch(i).value.1 ==> fetch(i).value.0 == BlockOf(content, bs, i)
  }

  /** What is on disk now was there before, or was fetched for this version and marked safe to keep. */
  ghost predicate OnlyKept(before: Files, after: Files, n: NodeId, v: VersionId, fetch: Fetch) {
    forall k :: k in after ==>
      || (k in before && before[k] == after[k])
      || (k.node == n && k.version == v && fetch(k.index).Ok? && fetch(k.index).value == (after[k], true))
  }

  ghost predicate AccountsFor(mode: Mode, blocks: Blocks, bytes: nat, next: nat) {
    bytes == Sum(blocks) && TicksOk(blocks, next) && (mode.Stream? ==> bytes <= mode.budget)
  }

  lemma TouchAccounts(mode: Mode, blocks: Blocks, bytes: nat, next: nat, k: Key)
    requires AccountsFor(mode, blocks, bytes, next) && k in blocks
    ensures AccountsFor(mode, blocks[k := blocks[k].(tick := next)], bytes, next + 1)
  {
    SumPut(blocks, k, blocks[k].(tick := next));
  }

  lemma DropAccounts(mode: Mode, blocks: Blocks, bytes: nat, next: nat, k: Key)
    requires AccountsFor(mode, blocks, bytes, next) && k in blocks
    ensures blocks[k].size <= bytes && AccountsFor(mode, blocks - {k}, bytes - blocks[k].size, next)
  {
    SumWithout(blocks, k);
  }

  lemma PutThenDrop(blocks: Blocks, k: Key, tick: nat)
    ensures if k in blocks then blocks[k := blocks[k].(tick := tick)] - {k} == blocks - {k} else blocks - {k} == blocks
  {
  }

  lemma PutAccounts(blocks: Blocks, next: nat, k: Key, size: nat)
    requires TicksOk(blocks, next)
    ensures TicksOk(blocks[k := Meta(size, next)], next + 1)
    ensures Sum(blocks[k := Meta(size, next)]) == Sum(blocks) + size - if k in blocks then blocks[k].size else 0
  {
    SumPut(blocks, k, Meta(size, next));
    if k !in blocks { assert blocks - {k} == blocks; }
  }

  lemma EvictedTicks(blocks: Blocks, budget: nat, victims: seq<Key>, left: Blocks, next: nat)
    requires TicksOk(blocks, next) && Evicted(blocks, budget, victims, left)
    ensures TicksOk(left, next)
  {
  }

  /** A lookup of this block succeeds. */
  predicate Kept(blocks: Blocks, files: Files, k: Key) {
    k in blocks && k in files && files[k] != []
  }

  function Found(blocks: Blocks, files: Files, k: Key): Option<seq<byte>> {
    if Kept(blocks, files, k) then Some(files[k]) else None
  }

  /** The blocks of a range, as lookups find them. */
  ghost predicate Looked(blocks: Blocks, files: Files, n: NodeId, v: VersionId, first: nat, slots: seq<Option<seq<byte>>>) {
    forall i :: 0 <= i < |slots| ==> slots[i] == Found(blocks, files, Key(n, v, first + i))
  }

  function FirstBlock(bs: nat, offset: nat): nat
    requires bs > 0
  {
    offset / bs
  }

  function CountBlocks(bs: nat, offset: nat, size: nat): nat
    requires bs > 0
  {
    if size == 0 then 0 else Max(0, (offset + size - 1) / bs - offset / bs + 1)
  }

  /** The blocks of a range are those that have bytes of it. */
  lemma BlocksExactly(bs: nat, offset: nat, size: nat, i: nat)
    requires bs > 0
    ensures FirstBlock(bs, offset) <= i < FirstBlock(bs, offset) + CountBlocks(bs, offset, size) <==>
            size > 0 && i * bs < offset + size && offset < i * bs + bs
  {
    if size > 0 {
      DivMono(offset, offset + size - 1, bs);
      if offset / bs <= i <= (offset + size - 1) / bs { BlockStarts(bs, offset, size, i); }
      if i * bs < offset + size && offset < i * bs + bs {
        DivMono(i * bs, offset + size - 1, bs);
        DivMono(offset, i * bs + bs - 1, bs);
        DivUnique(i * bs, i, bs);
        DivUnique(i * bs + bs - 1, i, bs);
      }
    }
  }

  /** The range has this block and a lookup does not find it. */
  predicate Needs(blocks: Blocks, files: Files, n: NodeId, v: VersionId, first: nat, count: nat, i: nat) {
    first <= i < first + count && !Kept(blocks, files, Key(n, v, i))
  }

  /** Which of the first `count` blocks have to be fetched. */
  function Missing(blocks: Blocks, files: Files, n: NodeId, v: VersionId, first: nat, count: nat): seq<nat> {
    if count == 0 then []
    else
      var before := Missing(blocks, files, n, v, first, count - 1);
      if Found(blocks, files, Key(n, v, first + (count - 1))).Some? then before else before + [count - 1]
  }

  lemma LookedOneMore(blocks: Blocks, files: Files, n: NodeId, v: VersionId, first: nat, slots: seq<Option<seq<byte>>>, i: nat)
    requires Looked(blocks, files, n, v, first, slots) && |slots| == i
    ensures var block := Found(blocks, files, Key(n, v, first + i));
            && Looked(blocks, files, n, v, first, slots + [block])
            && Missing(blocks, files, n, v, first, i + 1) == Missing(blocks, files, n, v, first, i) + if block.None? then [i] else []
  {
    var before := Missing(blocks, files, n, v, first, i);
    assert before + [] == before;
  }

  lemma {:induction false} MissingIs(blocks: Blocks, files: Files, n: NodeId, v: VersionId, first: nat, count: nat)
    ensures var misses := Missing(blocks, files, n, v, first, count);
            && NoDuplicates(misses)
            && forall i :: i in misses <==> 0 <= i < count && !Kept(blocks, files, Key(n, v, first + i))
    decreases count
  {
    if count > 0 {
      MissingIs(blocks, files, n, v, first, count - 1);
      var before := Missing(blocks, files, n, v, first, count - 1);
      assert forall j :: 0 <= j < |before| ==> before[j] in before;
    }
  }

  predicate Within(k: Key, n: NodeId, v: VersionId, first: nat, count: nat) {
    k.node == n && k.version == v && first <= k.index < first + count
  }

  /** Looking up a range makes its blocks the most recent ones, forgets those that are not there, and leaves all others
      alone. */
  ghost predicate LookedUp(before: Blocks, after: Blocks, files: Files, next: nat, n: NodeId, v: VersionId, first: nat, count: nat) {
    && (forall k :: k in after <==> k in before && (Within(k, n, v, first, count) ==> Kept(before, files, k)))
    && (forall k :: k in after ==>
          && after[k].size == before[k].size
          && if Within(k, n, v, first, count) then after[k].tick >= next else after[k] == before[k])
  }

  lemma LookedUpOneMore(before: Blocks, now: Blocks, after: Blocks, files: Files, next: nat, tick: nat, n: NodeId, v: VersionId, first: nat, i: nat)
    requires LookedUp(before, now, files, next, n, v, first, i) && tick >= next
    requires var k := Key(n, v, first + i);
             after == if Found(now, files, k).Some? then now[k := now[k].(tick := tick)] else now - {k}
    ensures LookedUp(before, after, files, next, n, v, first, i + 1)
    ensures Found(now, files, Key(n, v, first + i)) == Found(before, files, Key(n, v, first + i))
  {
    var k := Key(n, v, first + i);
    assert !Within(k, n, v, first, i);
    assert forall j :: Within(j, n, v, first, i + 1) <==> j == k || Within(j, n, v, first, i);
  }

  /** Exactly the empty slots wait for their fetch. */
  ghost predicate Waiting(slots: seq<Option<seq<byte>>>, misses: seq<nat>) {
    NoDuplicates(misses) && forall i :: i in misses <==> 0 <= i < |slots| && slots[i].None?
  }

  /** The slots once the answers for all but the waiting ones are in. */
  ghost predicate Filled(slots: seq<Option<seq<byte>>>, filled: seq<Option<seq<byte>>>, waiting: seq<nat>, first: nat, fetch: Fetch) {
    && |filled| == |slots|
    && forall i :: 0 <= i < |slots| ==>
         if slots[i].Some? || i in waiting then filled[i] == slots[i]
         else fetch(first + i).Ok? && filled[i] == Some(fetch(first + i).value.0)
  }

  /** The block as a lookup found it, or else as it was fetched. */
  predicate SlotGathered(blocks: Blocks, files: Files, k: Key, fetch: Fetch, data: seq<byte>) {
    if Kept(blocks, files, k) then data == files[k] else fetch(k.index).Ok? && data == fetch(k.index).value.0
  }

  ghost predicate Gathered(blocks: Blocks, files: Files, n: NodeId, v: VersionId, first: nat, got: seq<seq<byte>>, fetch: Fetch) {
    forall i :: 0 <= i < |got| ==> SlotGathered(blocks, files, Key(n, v, first + i), fetch, got[i])
  }

  lemma FilledIsGathered(blocks: Blocks, files: Files, n: NodeId, v: VersionId, first: nat, slots: seq<Option<seq<byte>>>,
                         filled: seq<Option<seq<byte>>>, fetch: Fetch)
    requires Looked(blocks, files, n, v, first, slots) && Filled(slots, filled, [], first, fetch)
    ensures forall i :: 0 <= i < |filled| ==> filled[i].Some? && SlotGathered(blocks, files, Key(n, v, first + i), fetch, filled[i].value)
  {
    forall i | 0 <= i < |filled| ensures filled[i].Some? && SlotGathered(blocks, files, Key(n, v, first + i), fetch, filled[i].value) {
      assert slots[i] == Found(blocks, files, Key(n, v, first + i));
    }
  }

  /** Every block that has to be fetched is the version's. */
  ghost predicate Exact(blocks: Blocks, files: Files, n: NodeId, v: VersionId, first: nat, count: nat, fetch: Fetch, bs: nat, content: seq<byte>) {
    forall i :: Needs(blocks, files, n, v, first, count, i) && fetch(i).Ok? ==> fetch(i).value.0 == BlockOf(content, bs, i)
  }

  lemma GatheredExact(blocks: Blocks, files: Files, n: NodeId, v: VersionId, first: nat, got: seq<seq<byte>>, fetch: Fetch, bs: nat, truth: Contents)
    requires Gathered(blocks, files, n, v, first, got, fetch)
    ensures forall i :: Needs(blocks, files, n, v, first, |got|, i) ==> fetch(i).Ok?
    ensures Agrees(files, bs, truth) && Exact(blocks, files, n, v, first, |got|, fetch, bs, truth(n, v)) ==>
              forall j :: 0 <= j < |got| ==> got[j] == BlockOf(truth(n, v), bs, first + j)
  {
    forall i: nat | Needs(blocks, files, n, v, first, |got|, i) ensures fetch(i).Ok? {
      var j := i - first;
      assert SlotGathered(blocks, files, Key(n, v, first + j), fetch, got[j]);
    }
    if Agrees(files, bs, truth) && Exact(blocks, files, n, v, first, |got|, fetch, bs, truth(n, v)) {
      forall j | 0 <= j < |got| ensures got[j] == BlockOf(truth(n, v), bs, first + j) {
        if !Kept(blocks, files, Key(n, v, first + j)) { assert Needs(blocks, files, n, v, first, |got|, first + j); }
      }
    }
  }

  lemma Removed(waiting: seq<nat>, j: nat)
    requires NoDuplicates(waiting) && j < |waiting|
    ensures var rest := waiting[..j] + waiting[j + 1..];
            NoDuplicates(rest) && forall i :: i in rest <==> i in waiting && i != waiting[j]
  {
    var rest := waiting[..j] + waiting[j + 1..];
    assert forall x :: 0 <= x < |rest| ==> rest[x] == if x < j then waiting[x] else waiting[x + 1];
    forall i | i in waiting && i != waiting[j] ensures i in rest {
      var x :| 0 <= x < |waiting| && waiting[x] == i;
      assert rest[if x < j then x else x - 1] == i;
    }
  }

  // ----- room for what is fetched -----

  function Size(answer: Result<(seq<byte>, bool), FetchError>): nat {
    if answer.Ok? then |answer.value.0| else 0
  }

  /** How much the fetches bring in. */
  function Weight(fetch: Fetch, first: nat, waiting: seq<nat>): nat {
    if waiting == [] then 0 else Weight(fetch, first, waiting[..|waiting| - 1]) + Size(fetch(first + waiting[|waiting| - 1]))
  }

  lemma {:induction false} WeightWithout(fetch: Fetch, first: nat, waiting: seq<nat>, j: nat)
    requires j < |waiting|
    ensures Weight(fetch, first, waiting) == Weight(fetch, first, waiting[..j] + waiting[j + 1..]) + Size(fetch(first + waiting[j]))
    decreases |waiting|
  {
    var rest, front := waiting[..j] + waiting[j + 1..], waiting[..|waiting| - 1];
    if j == |front| {
      assert rest == front;
    } else {
      WeightWithout(fetch, first, front, j);
      assert rest[..|rest| - 1] == front[..j] + front[j + 1..];
    }
  }

  /** One answer less to wait for. */
  lemma OneFewer(slots: seq<Option<seq<byte>>>, filled: seq<Option<seq<byte>>>, waiting: seq<nat>, rest: seq<nat>, j: nat, first: nat, fetch: Fetch)
    requires NoDuplicates(waiting) && j < |waiting| && rest == waiting[..j] + waiting[j + 1..] && Filled(slots, filled, waiting, first, fetch)
    requires waiting[j] < |slots| && slots[waiting[j]].None? && fetch(first + waiting[j]).Ok?
    ensures NoDuplicates(rest) && forall i :: i in rest <==> i in waiting && i != waiting[j]
    ensures Weight(fetch, first, waiting) == Weight(fetch, first, rest) + |fetch(first + waiting[j]).value.0|
    ensures Filled(slots, filled[waiting[j] := Some(fetch(first + waiting[j]).value.0)], rest, first, fetch)
  {
    Removed(waiting, j);
    WeightWithout(fetch, first, waiting, j);
  }

  predicate Room(mode: Mode, bytes: nat, weight: nat) {
    mode.Stream? ==> bytes + weight <= mode.budget
  }

  /** An answer to keep is kept, and is among the most recent blocks. */
  ghost predicate AnswerKept(blocks: Blocks, files: Files, next: nat, k: Key, fetch: Fetch, written: Key -> bool) {
    fetch(k.index).Ok? && fetch(k.index).value.1 && fetch(k.index).value.0 != [] && written(k) ==>
      Kept(blocks, files, k) && files[k] == fetch(k.index).value.0 && blocks[k].tick >= next
  }

  /** Every answer but those in `waiting` was kept, and no other block has moved. */
  ghost predicate AllKept(before: Blocks, was: Files, blocks: Blocks, files: Files, next: nat, n: NodeId, v: VersionId,
                          first: nat, misses: seq<nat>, waiting: seq<nat>, fetch: Fetch, written: Key -> bool) {
    && (forall k :: Answers(k, n, v, first, misses) && !Answers(k, n, v, first, waiting) ==> AnswerKept(blocks, files, next, k, fetch, written))
    && (forall k :: k in before && !Answers(k, n, v, first, misses) ==> k in blocks && blocks[k] == before[k])
    && (forall k :: k in was && !Answers(k, n, v, first, misses) ==> k in files && files[k] == was[k])
  }

  predicate Answers(k: Key, n: NodeId, v: VersionId, first: nat, misses: seq<nat>) {
    k.node == n && k.version == v && k.index >= first && k.index - first in misses
  }

  /** After a read all blocks of its range are kept and the most recent ones, as far as they may be kept and the disk took
      them; nothing else has moved. */
  ghost predicate ReadKept(before: Blocks, was: Files, blocks: Blocks, files: Files, next: nat, n: NodeId, v: VersionId,
                           first: nat, count: nat, fetch: Fetch, written: Key -> bool) {
    && (forall k :: Within(k, n, v, first, count) && Kept(before, was, k) ==>
          Kept(blocks, files, k) && files[k] == was[k] && blocks[k].tick >= next)
    && (forall k :: Within(k, n, v, first, count) && !Kept(before, was, k) ==> AnswerKept(blocks, files, next, k, fetch, written))
    && (forall k :: k in before && !Within(k, n, v, first, count) ==> k in blocks && blocks[k] == before[k])
    && (forall k :: k in was && !Within(k, n, v, first, count) ==> k in files && files[k] == was[k])
  }

  lemma AnswersExactly(blocks: Blocks, files: Files, n: NodeId, v: VersionId, first: nat, count: nat, k: Key)
    ensures Answers(k, n, v, first, Missing(blocks, files, n, v, first, count)) <==> Within(k, n, v, first, count) && !Kept(blocks, files, k)
  {
    MissingIs(blocks, files, n, v, first, count);
    if k.node == n && k.version == v && k.index >= first {
      var i := k.index - first;
      assert k == Key(n, v, first + i);
    }
  }

  lemma KeptByRead(before: Blocks, was: Files, looked: Blocks, blocks: Blocks, files: Files, next: nat, tick: nat, n: NodeId, v: VersionId,
                   first: nat, count: nat, misses: seq<nat>, fetch: Fetch, written: Key -> bool)
    requires tick >= next && LookedUp(before, looked, was, next, n, v, first, count)
    requires forall k :: Answers(k, n, v, first, misses) <==> Within(k, n, v, first, count) && !Kept(before, was, k)
    requires AllKept(looked, was, blocks, files, tick, n, v, first, misses, [], fetch, written)
    ensures ReadKept(before, was, blocks, files, next, n, v, first, count, fetch, written)
  {
    forall k | Within(k, n, v, first, count) && !Kept(before, was, k) ensures AnswerKept(blocks, files, next, k, fetch, written) {
      assert Answers(k, n, v, first, misses) && !Answers(k, n, v, first, []);
    }
  }

  /** An answer has come in; it is kept if it may be and the disk takes it. */
  ghost predicate Took(now: Blocks, had: Files, blocks: Blocks, files: Files, tick: nat, k: Key, fetch: Fetch, written: Key -> bool) {
    && fetch(k.index).Ok?
    && var (data, keepable) := fetch(k.index).value;
       if keepable && data != [] && written(k) then blocks == now[k := Meta(|data|, tick)] && files == had[k := data]
       else blocks == now && files == had
  }

  lemma KeptOneMore(before: Blocks, was: Files, now: Blocks, had: Files, blocks: Blocks, files: Files, next: nat, tick: nat,
                    n: NodeId, v: VersionId, first: nat, misses: seq<nat>, waiting: seq<nat>, rest: seq<nat>, i: nat, k: Key,
                    fetch: Fetch, written: Key -> bool)
    requires AllKept(before, was, now, had, next, n, v, first, misses, waiting, fetch, written)
    requires i in misses && (forall j :: j in rest <==> j in waiting && j != i) && tick >= next && k == Key(n, v, first + i)
    requires Took(now, had, blocks, files, tick, k, fetch, written)
    ensures AllKept(before, was, blocks, files, next, n, v, first, misses, rest, fetch, written)
  {
    assert forall j :: Answers(j, n, v, first, rest) <==> Answers(j, n, v, first, waiting) && j != k;
    assert Answers(k, n, v, first, misses) && AnswerKept(blocks, files, next, k, fetch, written);
    forall j | Answers(j, n, v, first, misses) && !Answers(j, n, v, first, rest) ensures AnswerKept(blocks, files, next, j, fetch, written) {
      if j != k { assert AnswerKept(now, had, next, j, fetch, written); }
    }
  }

  lemma NoVictims(blocks: Blocks, files: Files, victims: seq<Key>, left: Blocks)
    requires victims == [] && Leaves(blocks, victims, left)
    ensures left == blocks && files - (set v | v in victims) == files
  {
  }

  lemma LastBlock(bs: nat, offset: nat, size: nat)
    requires bs > 0 && size > 0
    ensures FirstBlock(bs, offset) == offset / bs
    ensures FirstBlock(bs, offset) + CountBlocks(bs, offset, size) - 1 == (offset + size - 1) / bs
  {
    DivMono(offset, offset + size - 1, bs);
  }

  lemma EmptyRead(blocks: Blocks, files: Files, next: nat, n: NodeId, v: VersionId, first: nat, fetch: Fetch, written: Key -> bool)
    ensures ReadKept(blocks, files, blocks, files, next, n, v, first, 0, fetch, written)
  {
  }

  lemma StillOnlyKept(before: Files, files: Files, n: NodeId, v: VersionId, fetch: Fetch, k: Key, data: seq<byte>,
                      victims: set<Key>)
    requires OnlyKept(before, files, n, v, fetch) && k.node == n && k.version == v && fetch(k.index) == Ok((data, true))
    ensures OnlyKept(before, files[k := data] - victims, n, v, fetch)
  {
  }

  /** Keeping only what may be kept keeps the cache right, for every version. */
  lemma KeptAgrees(before: Files, after: Files, bs: nat, truth: Contents, n: NodeId, v: VersionId, fetch: Fetch)
    requires Agrees(before, bs, truth) && OnlyKept(before, after, n, v, fetch) && Faithful(fetch, bs, truth(n, v))
    ensures Agrees(after, bs, truth)
  {
  }

  /** The entries of all other files. */
  function Elsewhere<T>(m: map<Key, T>, n: NodeId): map<Key, T> {
    map k | k in m && k.node != n :: m[k]
  }

  lemma OnlyElsewhere(blocks: Blocks, n: NodeId, gone: set<Key>)
    requires forall k :: k in gone <==> k in blocks && k.node == n
    ensures blocks - gone == Elsewhere(blocks, n)
  {
  }

  lemma OneMoreGone(blocks: Blocks, gone: set<Key>, k: Key)
    ensures blocks - gone - {k} == blocks - (gone + {k})
  {
  }

  class Cache {
    const mode: Mode
    const bs: nat
    var blocks: Blocks
    var nextTick: nat
    var bytes: nat
    var files: Files

    ghost predicate Valid()
      reads this
    {
      bs > 0 && AccountsFor(mode, blocks, bytes, nextTick)
    }

    constructor (mode: Mode)
      ensures Valid() && files == map[] && blocks == map[] && this.mode == mode && bs == 1024 * 1024
    {
      this.mode, bs := mode, BLOCK_SIZE;
      blocks, nextTick, bytes, files := map[], 0, 0, map[];
    }

    /** Drop a block from the accounting; the counter never has to stop at zero. */
    method Unaccount(k: Key)
      requires Valid()
      modifies this`blocks, this`bytes
      ensures Valid() && blocks == old(blocks) - {k} && bytes <= old(bytes)
    {
      if k in blocks {
        DropAccounts(mode, blocks, bytes, nextTick, k);
        bytes := bytes - blocks[k].size;
        blocks := blocks - {k};
      }
    }

    /** A block from disk, now the most recently used; one that is gone or empty is forgotten. */
    method Load(k: Key) returns (r: Option<seq<byte>>)
      requires Valid()
      modifies this`blocks, this`bytes, this`nextTick
      ensures Valid() && bytes <= old(bytes) && nextTick >= old(nextTick)
      ensures r == Found(old(blocks), files, k)
      ensures blocks == if r.Some? then old(blocks)[k := old(blocks)[k].(tick := old(nextTick))] else old(blocks) - {k}
    {
      PutThenDrop(blocks, k, nextTick);
      if k !in blocks { return None; }
      TouchAccounts(mode, blocks, bytes, nextTick, k);
      blocks := blocks[k := blocks[k].(tick := nextTick)];
      nextTick := nextTick + 1;
      if k !in files || files[k] == [] {
        Unaccount(k);
        return None;
      }
      r := Some(files[k]);
    }

    /** Keep a block; `written` says whether the disk took it. In stream mode the oldest blocks make room. */
    method Store(k: Key, data: seq<byte>, written: bool) returns (ghost victims: seq<Key>)
      requires Valid()
      modifies this
      ensures Valid() && nextTick >= old(nextTick)
      ensures data == [] || !written ==> blocks == old(blocks) && files == old(files) && bytes == old(bytes)
      ensures data != [] && written ==>
                var with := old(blocks)[k := Meta(|data|, old(nextTick))];
                && (if mode.Stream? then Evicted(with, mode.budget, victims, blocks) else victims == [] && blocks == with)
                && files == old(files)[k := data] - set v | v in victims
    {
      victims := [];
      if data == [] || !written { return; }
      PutAccounts(blocks, nextTick, k, |data|);
      files := files[k := data];
      bytes := bytes + |data| - if k in blocks then blocks[k].size else 0;
      blocks := blocks[k := Meta(|data|, nextTick)];
      nextTick := nextTick + 1;
      if mode.Stream? { victims := Evict(mode.budget); } else { assert files == files - set v | v in victims; }
    }

    /** Make room. */
    method Evict(budget: nat) returns (ghost victims: seq<Key>)
      requires bytes == Sum(blocks) && TicksOk(blocks, nextTick)
      modifies this`blocks, this`bytes, this`files
      ensures Evicted(old(blocks), budget, victims, blocks) && files == old(files) - set v | v in victims
      ensures bytes == Sum(blocks) && TicksOk(blocks, nextTick)
    {
      var evict, left, remaining := PickVictims(blocks, bytes, budget);
      EvictedTicks(blocks, budget, evict, left, nextTick);
      victims := evict;
      blocks, bytes := left, remaining;
      files := files - set v | v in evict;
    }

    /** After this no block of the file is indexed, and no other block has moved. */
    method Invalidate(n: NodeId)
      requires Valid()
      modifies this`blocks, this`bytes, this`files
      ensures Valid()
      ensures blocks == Elsewhere(old(blocks), n) && files == Elsewhere(old(files), n)
    {
      var doomed := set k | k in blocks && k.node == n;
      ghost var gone: set<Key> := {};
      while doomed != {}
        invariant Valid() && files == old(files) && blocks == old(blocks) - gone
        invariant forall k :: k in gone || k in doomed <==> k in old(blocks) && k.node == n
        decreases |doomed|
      {
        var k :| k in doomed;
        Unaccount(k);
        OneMoreGone(old(blocks), gone, k);
        gone := gone + {k};
        doomed := doomed - {k};
      }
      OnlyElsewhere(old(blocks), n, gone);
      files := Elsewhere(files, n);
    }

    /** Look every block up first, so that the misses can be fetched together. */
    method LoadAll(n: NodeId, v: VersionId, first: nat, count: nat) returns (slots: seq<Option<seq<byte>>>, misses: seq<nat>)
      requires Valid()
      modifies this`blocks, this`bytes, this`nextTick
      ensures Valid() && bytes <= old(bytes) && nextTick >= old(nextTick)
      ensures |slots| == count && Looked(old(blocks), files, n, v, first, slots)
      ensures misses == Missing(old(blocks), files, n, v, first, count)
      ensures LookedUp(old(blocks), blocks, files, old(nextTick), n, v, first, count)
    {
      slots, misses := [], [];
      for i := 0 to count
        invariant Valid() && bytes <= old(bytes) && nextTick >= old(nextTick) && |slots| == i && Looked(old(blocks), files, n, v, first, slots)
        invariant misses == Missing(old(blocks), files, n, v, first, i)
        invariant LookedUp(old(blocks), blocks, files, old(nextTick), n, v, first, i)
      {
        ghost var now, tick := blocks, nextTick;
        var block := Load(Key(n, v, first + i));
        LookedUpOneMore(old(blocks), now, blocks, files, old(nextTick), tick, n, v, first, i);
        LookedOneMore(old(blocks), files, n, v, first, slots, i);
        slots := slots + [block];
        misses := misses + if block.None? then [i] else [];
      }
    }

    /** Fetch what is missing; answers come in any order, and only what may be kept is kept, `written` telling which
        blocks the disk takes. */
    method FetchMisses(n: NodeId, v: VersionId, first: nat, slots: seq<Option<seq<byte>>>, misses: seq<nat>,
                       fetch: Fetch, written: Key -> bool)
      returns (r: Result<seq<Option<seq<byte>>>, FetchError>)
      requires Valid() && Waiting(slots, misses)
      modifies this
      ensures Valid() && OnlyKept(old(files), files, n, v, fetch)
      ensures r.Ok? ==> Filled(slots, r.value, [], first, fetch)
      ensures r.Ok? && Room(mode, old(bytes), Weight(fetch, first, misses)) ==>
                AllKept(old(blocks), old(files), blocks, files, old(nextTick), n, v, first, misses, [], fetch, written)
      ensures r.Err? ==> exists i :: i in misses && fetch(first + i) == Err(r.error)
    {
      var filled, waiting := slots, misses;
      ghost var roomy := Room(mode, bytes, Weight(fetch, first, misses));
      while waiting != []
        invariant Valid() && OnlyKept(old(files), files, n, v, fetch) && nextTick >= old(nextTick)
        invariant NoDuplicates(waiting) && (forall i :: i in waiting ==> i in misses) && Filled(slots, filled, waiting, first, fetch)
        invariant roomy ==> Room(mode, bytes, Weight(fetch, first, waiting))
        invariant roomy ==> AllKept(old(blocks), old(files), blocks, files, old(nextTick), n, v, first, misses, waiting, fetch, written)
        decreases |waiting|
      {
        var j :| 0 <= j < |waiting|;
        var slot := waiting[j];
        assert slot in waiting && slot in misses;
        var answer := fetch(first + slot);
        if answer.Err? { return Err(answer.error); }
        ghost var now, had, tick := blocks, files, nextTick;
        TakeAnswer(Key(n, v, first + slot), answer.value.0, answer.value.1, written, n, v, fetch, old(files));
        var rest := waiting[..j] + waiting[j + 1..];
        OneFewer(slots, filled, waiting, rest, j, first, fetch);
        if roomy {
          KeptOneMore(old(blocks), old(files), now, had, blocks, files, old(nextTick), tick, n, v, first, misses, waiting, rest, slot,
                      Key(n, v, first + slot), fetch, written);
        }
        filled := filled[slot := Some(answer.value.0)];
        waiting := rest;
      }
      r := Ok(filled);
    }

    /** Keep the block if it may be kept. */
    method TakeAnswer(k: Key, data: seq<byte>, keepable: bool, written: Key -> bool, ghost n: NodeId, ghost v: VersionId,
                      ghost fetch: Fetch, ghost before: Files)
      requires Valid() && OnlyKept(before, files, n, v, fetch) && k.node == n && k.version == v && fetch(k.index) == Ok((data, keepable))
      modifies this
      ensures Valid() && OnlyKept(before, files, n, v, fetch) && nextTick >= old(nextTick)
      ensures Room(mode, old(bytes), |data|) ==>
                bytes <= old(bytes) + |data| && Took(old(blocks), old(files), blocks, files, old(nextTick), k, fetch, written)
    {
      if keepable {
        ghost var was := files;
        PutAccounts(blocks, nextTick, k, |data|);
        ghost var victims := Store(k, data, written(k));
        StillOnlyKept(before, was, n, v, fetch, k, data, set x | x in victims);
        if Room(mode, old(bytes), |data|) && data != [] && written(k) { NoVictims(old(blocks)[k := Meta(|data|, old(nextTick))], was[k := data], victims, blocks); }
      }
    }

    /** The blocks of a range: those that are there, and the others fetched. */
    method Gather(n: NodeId, v: VersionId, first: nat, count: nat, fetch: Fetch, written: Key -> bool)
      returns (r: Result<seq<seq<byte>>, FetchError>)
      requires Valid()
      modifies this
      ensures Valid() && OnlyKept(old(files), files, n, v, fetch)
      ensures r.Err? ==> exists i :: Needs(old(blocks), old(files), n, v, first, count, i) && fetch(i) == Err(r.error)
      ensures r.Ok? ==> |r.value| == count && Gathered(old(blocks), old(files), n, v, first, r.value, fetch)
      ensures r.Ok? && Room(mode, old(bytes), Weight(fetch, first, Missing(old(blocks), old(files), n, v, first, count))) ==>
                ReadKept(old(blocks), old(files), blocks, files, old(nextTick), n, v, first, count, fetch, written)
    {
      ghost var misses0 := Missing(blocks, files, n, v, first, count);
      MissingIs(blocks, files, n, v, first, count);
      var slots, misses := LoadAll(n, v, first, count);
      ghost var looked, tick := blocks, nextTick;
      var filled := FetchMisses(n, v, first, slots, misses, fetch, written);
      if filled.Err? {
        ghost var i :| i in misses && fetch(first + i) == Err(filled.error);
        assert Needs(old(blocks), old(files), n, v, first, count, first + i);
        return Err(filled.error);
      }
      FilledIsGathered(old(blocks), old(files), n, v, first, slots, filled.value, fetch);
      r := Ok(seq(|filled.value|, i requires 0 <= i < |filled.value| && filled.value[i].Some? => filled.value[i].value));
      if Room(mode, old(bytes), Weight(fetch, first, misses0)) {
        forall k ensures Answers(k, n, v, first, misses) <==> Within(k, n, v, first, count) && !Kept(old(blocks), old(files), k) {
          AnswersExactly(old(blocks), old(files), n, v, first, count, k);
        }
        KeptByRead(old(blocks), old(files), looked, blocks, files, old(nextTick), tick, n, v, first, count, misses, fetch, written);
      }
    }

    /** The same for a range that is not empty, given its blocks. */
    method ReadBlocks(n: NodeId, v: VersionId, offset: nat, size: nat, first: nat, count: nat, fetch: Fetch, written: Key -> bool,
                      ghost truth: Contents)
      returns (r: Result<seq<byte>, FetchError>)
      requires Valid() && size > 0 && first == FirstBlock(bs, offset) && count == CountBlocks(bs, offset, size)
      modifies this
      ensures Valid() && OnlyKept(old(files), files, n, v, fetch)
      ensures Agrees(old(files), bs, truth) && Faithful(fetch, bs, truth(n, v)) ==> Agrees(files, bs, truth)
      ensures r.Err? ==> exists i :: Needs(old(blocks), old(files), n, v, first, count, i) && fetch(i) == Err(r.error)
      ensures r.Ok? ==> forall i :: Needs(old(blocks), old(files), n, v, first, count, i) ==> fetch(i).Ok?
      ensures r.Ok? && Agrees(old(files), bs, truth) && Exact(old(blocks), old(files), n, v, first, count, fetch, bs, truth(n, v)) ==>
                r.value == Slice(truth(n, v), offset, offset + size)
      ensures r.Ok? && Room(mode, old(bytes), Weight(fetch, first, Missing(old(blocks), old(files), n, v, first, count))) ==>
                ReadKept(old(blocks), old(files), blocks, files, old(nextTick), n, v, first, count, fetch, written)
    {
      LastBlock(bs, offset, size);
      var filled := Gather(n, v, first, count, fetch, written);
      if Agrees(old(files), bs, truth) && Faithful(fetch, bs, truth(n, v)) { KeptAgrees(old(files), files, bs, truth, n, v, fetch); }
      if filled.Err? { return Err(filled.error); }
      GatheredExact(old(blocks), old(files), n, v, first, filled.value, fetch, bs, truth);
      var out := Stitch(filled.value, bs, offset, size, first, first + count - 1, truth(n, v));
      r := Ok(out);
    }

    /** Serve a range of a version, from disk where possible: only blocks that are not there are fetched, and with room
        for them all blocks of the range are kept and are the most recent ones afterwards. */
    method Read(n: NodeId, v: VersionId, offset: nat, size: nat, fetch: Fetch, written: Key -> bool, ghost truth: Contents)
      returns (r: Result<seq<byte>, FetchError>)
      requires Valid()
      modifies this
      ensures Valid() && OnlyKept(old(files), files, n, v, fetch)
      ensures Agrees(old(files), bs, truth) && Faithful(fetch, bs, truth(n, v)) ==> Agrees(files, bs, truth)
      ensures var first, count := FirstBlock(bs, offset), CountBlocks(bs, offset, size);
              && (r.Err? ==> exists i :: Needs(old(blocks), old(files), n, v, first, count, i) && fetch(i) == Err(r.error))
              && (r.Ok? ==> forall i :: Needs(old(blocks), old(files), n, v, first, count, i) ==> fetch(i).Ok?)
              && (r.Ok? && Agrees(old(files), bs, truth) && Exact(old(blocks), old(files), n, v, first, count, fetch, bs, truth(n, v)) ==>
                    r.value == Slice(truth(n, v), offset, offset + size))
              && (r.Ok? && Room(mode, old(bytes), Weight(fetch, first, Missing(old(blocks), old(files), n, v, first, count))) ==>
                    ReadKept(old(blocks), old(files), blocks, files, old(nextTick), n, v, first, count, fetch, written))
    {
      var first, count := FirstBlock(bs, offset), CountBlocks(bs, offset, size);
      EmptyRead(blocks, files, nextTick, n, v, first, fetch, written);
      if size == 0 { return Ok([]); }
      r := ReadBlocks(n, v, offset, size, first, count, fetch, written, truth);
    }
  }
}
