/** The blocks of a piece as they arrive, hashed in order (piece_storage.go). */
module ReceivingPieces {
  import opened Bytes
  import opened PendingBlocks

  datatype Stored = Stored(index: nat, data: seq<byte>)

  /** hashed is what has been written to the hash so far. */
  datatype Receiving = Receiving(blocks: seq<Stored>, hashed: seq<byte>, hashIndex: nat)

  const EMPTY := Receiving([], [], 0)

  /** How many leading blocks have a smaller index. */
  function Skip(blocks: seq<Stored>, index: nat): (n: nat)
    ensures n <= |blocks|
    ensures forall i :: 0 <= i < n ==> blocks[i].index < index
    ensures n < |blocks| ==> index <= blocks[n].index
  {
    if blocks == [] || index <= blocks[0].index then 0 else 1 + Skip(blocks[1..], index)
  }

  predicate Has(blocks: seq<Stored>, index: nat) {
    var k := Skip(blocks, index);
    k < |blocks| && blocks[k].index == index
  }

  function Place(blocks: seq<Stored>, b: Stored): seq<Stored> {
    var k := Skip(blocks, b.index);
    blocks[..k] + [b] + blocks[k..]
  }

  /** The hashing loop from position i on: write each block that is next in order. */
  function HashFrom(r: Receiving, i: nat): Receiving
    decreases |r.blocks| - i
  {
    if i >= |r.blocks| then r
    else if r.blocks[i].index < r.hashIndex then HashFrom(r, i + 1)
    else if r.blocks[i].index != r.hashIndex then r
    else HashFrom(r.(hashed := r.hashed + r.blocks[i].data, hashIndex := r.hashIndex + 1), i + 1)
  }

  function Insert(r: Receiving, b: Stored): Receiving {
    if Has(r.blocks, b.index) then r else HashFrom(r.(blocks := Place(r.blocks, b)), 0)
  }

  function Concat(blocks: seq<Stored>): seq<byte> {
    if blocks == [] then [] else Concat(blocks[..|blocks| - 1]) + blocks[|blocks| - 1].data
  }

  ghost predicate Ascending(blocks: seq<Stored>) {
    forall i, j :: 0 <= i < j < |blocks| ==> blocks[i].index < blocks[j].index
  }

  /** The first n blocks are the blocks 0..n-1 of the piece, hashed in order. */
  ghost predicate HashedTo(r: Receiving, n: nat) {
    && n <= |r.blocks|
    && (forall i :: 0 <= i < n ==> r.blocks[i].index == i)
    && r.hashed == Concat(r.blocks[..n])
  }

  /** In order, hashed up to the first gap. */
  ghost predicate HashedToGap(r: Receiving) {
    && Ascending(r.blocks)
    && HashedTo(r, r.hashIndex)
    && (r.hashIndex < |r.blocks| ==> r.hashIndex < r.blocks[r.hashIndex].index)
  }

  function Indexes(blocks: seq<Stored>): set<nat> {
    set i | 0 <= i < |blocks| :: blocks[i].index
  }

  /** Which blocks are stored, with what data. */
  function Contents(blocks: seq<Stored>): map<nat, seq<byte>> {
    map k | k in Indexes(blocks) :: if Skip(blocks, k) < |blocks| then blocks[Skip(blocks, k)].data else []
  }

  lemma {:induction false} SkipIs(blocks: seq<Stored>, index: nat, k: nat)
    requires k <= |blocks| && forall i :: 0 <= i < k ==> blocks[i].index < index
    requires k < |blocks| ==> index <= blocks[k].index
    ensures Skip(blocks, index) == k
  {
  }

  lemma ContentsAt(blocks: seq<Stored>, i: nat)
    requires Ascending(blocks) && i < |blocks|
    ensures blocks[i].index in Contents(blocks) && Contents(blocks)[blocks[i].index] == blocks[i].data
    ensures Skip(blocks, blocks[i].index) == i
  {
    SkipIs(blocks, blocks[i].index, i);
  }

  lemma HasIffStored(blocks: seq<Stored>, index: nat)
    requires Ascending(blocks)
    ensures Has(blocks, index) <==> index in Contents(blocks)
  {
    if index in Contents(blocks) {
      var i :| 0 <= i < |blocks| && blocks[i].index == index;
      ContentsAt(blocks, i);
    }
  }

  lemma ContentsFind(blocks: seq<Stored>, key: nat) returns (i: nat)
    requires Ascending(blocks) && key in Contents(blocks)
    ensures i < |blocks| && blocks[i] == Stored(key, Contents(blocks)[key])
  {
    i :| 0 <= i < |blocks| && blocks[i].index == key;
    ContentsAt(blocks, i);
  }

  lemma ContentsInsertAt(blocks: seq<Stored>, k: nat, b: Stored, after: seq<Stored>, key: nat)
    requires Ascending(blocks) && Ascending(after) && k <= |blocks|
    requires after == blocks[..k] + [b] + blocks[k..]
    ensures key in Contents(after) <==> key in Contents(blocks) || key == b.index
    ensures key in Contents(after) ==> Contents(after)[key] == if key == b.index then b.data else Contents(blocks)[key]
    ensures b.index !in Contents(blocks)
  {
    hide Contents, Skip;
    assert after[k] == b;
    ContentsAt(after, k);
    if key in Contents(after) {
      var j := ContentsFind(after, key);
      if j < k {
        ContentsAt(blocks, j);
      } else if k < j {
        ContentsAt(blocks, j - 1);
      }
    }
    if key in Contents(blocks) {
      var j := ContentsFind(blocks, key);
      assert after[if j < k then j else j + 1] == blocks[j];
      ContentsAt(after, if j < k then j else j + 1);
    }
    forall j | 0 <= j < |blocks|
      ensures blocks[j].index != b.index
    {
      assert after[if j < k then j else j + 1] == blocks[j];
    }
    ContentKeys(blocks);
  }

  /** A list that is another one with one more block, at any place, stores one more block. */
  lemma ContentsInsert(blocks: seq<Stored>, k: nat, b: Stored, after: seq<Stored>)
    requires Ascending(blocks) && Ascending(after) && k <= |blocks|
    requires after == blocks[..k] + [b] + blocks[k..]
    ensures Contents(after) == Contents(blocks)[b.index := b.data]
    ensures b.index !in Contents(blocks)
  {
    hide Contents, Skip;
    forall key: nat
      ensures key in Contents(after) <==> key in Contents(blocks)[b.index := b.data]
      ensures key in Contents(after) ==> Contents(after)[key] == Contents(blocks)[b.index := b.data][key]
      ensures b.index !in Contents(blocks)
    {
      ContentsInsertAt(blocks, k, b, after, key);
    }
    ContentsInsertAt(blocks, k, b, after, 0);
  }

  lemma ContentKeys(blocks: seq<Stored>)
    ensures forall k :: k in Contents(blocks) <==> exists i :: 0 <= i < |blocks| && blocks[i].index == k
  {
  }

  lemma PlaceAscending(blocks: seq<Stored>, b: Stored)
    requires Ascending(blocks) && !Has(blocks, b.index)
    ensures Ascending(Place(blocks, b))
    ensures Contents(Place(blocks, b)) == Contents(blocks)[b.index := b.data]
  {
    var after := Place(blocks, b);
    assert Ascending(after);
    ContentsInsert(blocks, Skip(blocks, b.index), b, after);
  }

  /** The loop hashes on from where it stood to the first gap. */
  lemma {:induction false} HashFromReachesGap(r: Receiving, i: nat)
    requires Ascending(r.blocks) && HashedTo(r, r.hashIndex) && i <= r.hashIndex
    ensures HashedToGap(HashFrom(r, i)) && HashFrom(r, i).blocks == r.blocks
    decreases |r.blocks| - i
  {
    if i < |r.blocks| {
      if r.blocks[i].index < r.hashIndex {
        assert i < r.hashIndex;
        HashFromReachesGap(r, i + 1);
      } else {
        assert i == r.hashIndex;
        if r.blocks[i].index == r.hashIndex {
          var next := r.(hashed := r.hashed + r.blocks[i].data, hashIndex := r.hashIndex + 1);
          assert r.blocks[..i + 1][..i] == r.blocks[..i];
          HashFromReachesGap(next, i + 1);
        }
      }
    }
  }

  lemma PlaceAfterHashed(r: Receiving, b: Stored)
    requires HashedToGap(r) && !Has(r.blocks, b.index)
    ensures r.hashIndex <= Skip(r.blocks, b.index)
  {
    if b.index < r.hashIndex {
      SkipIs(r.blocks, b.index, b.index);
    }
  }

  /** Inserting keeps the piece in order and hashed to the first gap; the first
      data that arrives for a block stays, a duplicate changes nothing. */
  lemma InsertKeepsFirst(r: Receiving, b: Stored)
    requires HashedToGap(r)
    ensures HashedToGap(Insert(r, b))
    ensures Contents(Insert(r, b).blocks)
            == if b.index in Contents(r.blocks) then Contents(r.blocks) else Contents(r.blocks)[b.index := b.data]
    ensures b.index in Contents(r.blocks) ==> Insert(r, b) == r
    ensures b.index !in Contents(r.blocks) ==> |Insert(r, b).blocks| == |r.blocks| + 1
  {
    hide Contents, HashFrom, Has;
    HasIffStored(r.blocks, b.index);
    if b.index !in Contents(r.blocks) {
      PlaceAscending(r.blocks, b);
      var placed := r.(blocks := Place(r.blocks, b));
      PlaceAfterHashed(r, b);
      assert placed.blocks[..r.hashIndex] == r.blocks[..r.hashIndex];
      HashFromReachesGap(placed, 0);
    }
  }

  lemma ContentsInit(blocks: seq<Stored>)
    requires Ascending(blocks) && blocks != []
    ensures Contents(blocks) == Contents(blocks[..|blocks| - 1])[blocks[|blocks| - 1].index :=
            blocks[|blocks| - 1].data]
    ensures blocks[|blocks| - 1].index !in Contents(blocks[..|blocks| - 1])
  {
    var n := |blocks| - 1;
    assert blocks == blocks[..n] + [blocks[n]] + blocks[..n][n..];
    ContentsInsert(blocks[..n], n, blocks[n], blocks);
  }

  lemma SameLast(a: seq<Stored>, b: seq<Stored>)
    requires Ascending(a) && Ascending(b) && Contents(a) == Contents(b) && a != [] && b != []
    ensures a[|a| - 1] == b[|b| - 1]
    ensures Contents(a[..|a| - 1]) == Contents(b[..|b| - 1])
  {
    hide Contents, Skip;
    LastIsGreatest(a);
    LastIsGreatest(b);
    ContentsAt(a, |a| - 1);
    ContentsAt(b, |b| - 1);
    ContentsInit(a);
    ContentsInit(b);
    var k := a[|a| - 1].index;
    assert Contents(a[..|a| - 1]) == Contents(a) - {k};
    assert Contents(b[..|b| - 1]) == Contents(b) - {k};
  }

  lemma {:induction false} AscendingUnique(a: seq<Stored>, b: seq<Stored>)
    requires Ascending(a) && Ascending(b) && Contents(a) == Contents(b)
    ensures a == b
  {
    hide Contents, Skip;
    if a == [] || b == [] {
      ContentKeys(a);
      ContentKeys(b);
      assert a == [] || a[0].index in Contents(a);
      assert b == [] || b[0].index in Contents(b);
    } else {
      SameLast(a, b);
      AscendingUnique(a[..|a| - 1], b[..|b| - 1]);
      assert a == a[..|a| - 1] + [a[|a| - 1]] && b == b[..|b| - 1] + [b[|b| - 1]];
    }
  }

  lemma LastIsGreatest(blocks: seq<Stored>)
    requires Ascending(blocks) && blocks != []
    ensures forall k :: k in Contents(blocks) ==> k <= blocks[|blocks| - 1].index
  {
    hide Contents, Skip;
    ContentKeys(blocks);
  }

  /** The state is determined by what is stored. */
  lemma StateIsDeterminedByContents(a: Receiving, b: Receiving)
    requires HashedToGap(a) && HashedToGap(b) && Contents(a.blocks) == Contents(b.blocks)
    ensures a == b
  {
    AscendingUnique(a.blocks, b.blocks);
  }

  function InsertAll(arrivals: seq<Stored>): Receiving {
    if arrivals == [] then EMPTY else Insert(InsertAll(arrivals[..|arrivals| - 1]), arrivals[|arrivals| - 1])
  }

  /** For each block, the data that arrived first. */
  function FirstArrivals(arrivals: seq<Stored>): map<nat, seq<byte>> {
    if arrivals == [] then map[]
    else
      var before, b := FirstArrivals(arrivals[..|arrivals| - 1]), arrivals[|arrivals| - 1];
      if b.index in before then before else before[b.index := b.data]
  }

  lemma {:induction false} InsertAllKeepsFirst(arrivals: seq<Stored>)
    ensures HashedToGap(InsertAll(arrivals))
    ensures Contents(InsertAll(arrivals).blocks) == FirstArrivals(arrivals)
  {
    if arrivals == [] {
      assert EMPTY.blocks[..0] == [];
    } else {
      InsertAllKeepsFirst(arrivals[..|arrivals| - 1]);
      InsertKeepsFirst(InsertAll(arrivals[..|arrivals| - 1]), arrivals[|arrivals| - 1]);
    }
  }

  /** The order of arrival does not matter, only which data came first for each block. */
  lemma ArrivalOrderIsIrrelevant(a: seq<Stored>, b: seq<Stored>)
    requires FirstArrivals(a) == FirstArrivals(b)
    ensures InsertAll(a) == InsertAll(b)
  {
    InsertAllKeepsFirst(a);
    InsertAllKeepsFirst(b);
    StateIsDeterminedByContents(InsertAll(a), InsertAll(b));
  }

  /** With one arrival per block, what is stored is what arrived. */
  lemma {:induction false} DistinctArrivals(a: seq<Stored>)
    requires forall i, j :: 0 <= i < j < |a| ==> a[i].index != a[j].index
    ensures forall s :: s in a <==> s.index in FirstArrivals(a) && FirstArrivals(a)[s.index] == s.data
  {
    if a != [] {
      var n := |a| - 1;
      DistinctArrivals(a[..n]);
      forall k | k in FirstArrivals(a[..n])
        ensures k != a[n].index
      {
        var s := Stored(k, FirstArrivals(a[..n])[k]);
        assert s in a[..n];
        var i :| 0 <= i < n && a[..n][i] == s;
        assert a[i].index == k;
      }
      assert forall s :: s in a <==> s in a[..n] || s == a[n];
    }
  }

  /** Any permutation of the same blocks leads to the same piece and the same hash. */
  lemma PermutedArrivals(a: seq<Stored>, b: seq<Stored>)
    requires multiset(a) == multiset(b)
    requires forall i, j :: 0 <= i < j < |a| ==> a[i].index != a[j].index
    ensures InsertAll(a) == InsertAll(b)
  {
    PermutedIndexes(a, b);
    DistinctArrivals(a);
    DistinctArrivals(b);
    var fa, fb := FirstArrivals(a), FirstArrivals(b);
    forall s: Stored
      ensures s in a <==> s in b
    {
      assert s in a <==> s in multiset(a);
    }
    forall k: nat
      ensures k in fa <==> k in fb
      ensures k in fa ==> fa[k] == fb[k]
    {
      if k in fa {
        assert Stored(k, fa[k]) in a;
      }
      if k in fb {
        assert Stored(k, fb[k]) in b;
      }
    }
    assert fa == fb;
    ArrivalOrderIsIrrelevant(a, b);
  }

  lemma {:induction false} PermutedIndexes(a: seq<Stored>, b: seq<Stored>)
    requires multiset(a) == multiset(b)
    requires forall i, j :: 0 <= i < j < |a| ==> a[i].index != a[j].index
    ensures forall i, j :: 0 <= i < j < |b| ==> b[i].index != b[j].index
  {
    forall i, j | 0 <= i < j < |b|
      ensures b[i].index != b[j].index
    {
      assert b[i] in multiset(a) && b[j] in multiset(a);
      var k :| 0 <= k < |a| && a[k] == b[i];
      if b[i] == b[j] {
        AppearsOnce(a, k);
        AppearsTwice(b, i, j);
      } else {
        var l :| 0 <= l < |a| && a[l] == b[j];
      }
    }
  }

  lemma AppearsOnce(a: seq<Stored>, k: nat)
    requires k < |a| && forall i, j :: 0 <= i < j < |a| ==> a[i].index != a[j].index
    ensures multiset(a)[a[k]] == 1
  {
    assert a == a[..k] + [a[k]] + a[k + 1..];
    assert multiset(a) == multiset(a[..k]) + multiset{a[k]} + multiset(a[k + 1..]);
    assert forall i :: 0 <= i < |a[..k]| ==> a[..k][i] == a[i];
    assert a[k] !in a[..k] && a[k] !in a[k + 1..];
  }

  lemma AppearsTwice(b: seq<Stored>, i: nat, j: nat)
    requires i < j < |b| && b[i] == b[j]
    ensures multiset(b)[b[i]] >= 2
  {
    assert b == b[..j] + [b[j]] + b[j + 1..];
    assert multiset(b) == multiset(b[..j]) + multiset{b[j]} + multiset(b[j + 1..]);
    assert b[..j][i] == b[i];
    assert b[i] in multiset(b[..j]);
  }

  /** The data of blocks 0..n-1 one after the other. */
  function InOrder(m: map<nat, seq<byte>>, n: nat): seq<byte>
    requires forall k: nat :: k < n ==> k in m
  {
    if n == 0 then [] else InOrder(m, n - 1) + m[n - 1]
  }

  lemma HashedAreStored(r: Receiving)
    requires HashedToGap(r)
    ensures forall k: nat :: k < r.hashIndex ==> k in Contents(r.blocks) && Contents(r.blocks)[k] == r.blocks[k].data
    ensures r.hashIndex !in Contents(r.blocks)
  {
    hide Contents, Skip;
    forall k: nat | k < r.hashIndex
      ensures k in Contents(r.blocks) && Contents(r.blocks)[k] == r.blocks[k].data
    {
      ContentsAt(r.blocks, k);
    }
    ContentKeys(r.blocks);
  }

  /** The bytes hashed so far are the data of the blocks before the first gap, in
      order, and the next block to hash is the smallest one missing. */
  lemma {:induction false} HashedInOrder(r: Receiving, n: nat)
    requires HashedToGap(r) && n <= r.hashIndex
    ensures forall k: nat :: k < n ==> k in Contents(r.blocks)
    ensures InOrder(Contents(r.blocks), n) == Concat(r.blocks[..n])
    ensures r.hashIndex !in Contents(r.blocks)
  {
    hide Contents, Skip;
    HashedAreStored(r);
    if n != 0 {
      HashedInOrder(r, n - 1);
      assert r.blocks[..n][..n - 1] == r.blocks[..n - 1];
    }
  }

  lemma {:induction false} IndexAtLeast(blocks: seq<Stored>, i: nat)
    requires Ascending(blocks) && i < |blocks|
    ensures blocks[i].index >= i
  {
    if 0 < i {
      IndexAtLeast(blocks, i - 1);
    }
  }

  lemma {:induction false} IndexAtMost(blocks: seq<Stored>, i: nat, n: nat)
    requires Ascending(blocks) && i < |blocks| && blocks[|blocks| - 1].index < n
    ensures blocks[i].index + (|blocks| - i) <= n
    decreases |blocks| - i
  {
    if i + 1 < |blocks| {
      IndexAtMost(blocks, i + 1, n);
    }
  }

  /** With n blocks below n stored, everything is hashed: the simple form,
      hashing all blocks in order at the end. */
  lemma CompleteIsHashedInOrder(r: Receiving, n: nat)
    requires HashedToGap(r) && |r.blocks| == n && forall i :: 0 <= i < n ==> r.blocks[i].index < n
    ensures r.hashIndex == n
    ensures forall k: nat :: k < n ==> k in Contents(r.blocks)
    ensures r.hashed == InOrder(Contents(r.blocks), n)
  {
    if r.hashIndex < n {
      IndexAtMost(r.blocks, r.hashIndex, n);
    }
    HashedInOrder(r, n);
  }

  class ReceivingPiece {
    /** The digest of a byte string. */
    const md4: seq<byte> -> seq<byte>
    /** The bytes written to the hash. */
    var hash: seq<byte>
    var blocks: seq<PendingBlock>
    var hashBlockIndex: nat

    function Value(): (r: Receiving)
      reads this, set pb | pb in blocks :: pb.data
      ensures |r.blocks| == |blocks| && r.hashed == hash && r.hashIndex == hashBlockIndex
      ensures forall i :: 0 <= i < |blocks| ==> r.blocks[i] == StoredOf(blocks[i])
    {
      Receiving(seq(|blocks|, i requires 0 <= i < |blocks| reads this,
          set pb | pb in blocks :: pb.data => StoredOf(blocks[i])),
                hash, hashBlockIndex)
    }

    static function StoredOf(pb: PendingBlock): Stored
      reads pb.data
    {
      Stored(pb.block.blockIndex, pb.data[..])
    }

    constructor (md4: seq<byte> -> seq<byte>)
      ensures Value() == EMPTY && this.md4 == md4
    {
      this.md4 := md4;
      hash, blocks, hashBlockIndex := [], [], 0;
    }

    /** Counts the blocks before the given one; found tells whether it is there already. */
    method SkipBlocks(blockIndex: nat) returns (found: bool, skipBlocks: nat)
      requires HashedToGap(Value())
      ensures found == Has(Value().blocks, blockIndex)
      ensures skipBlocks == Skip(Value().blocks, blockIndex)
    {
      found, skipBlocks := false, 0;
      while skipBlocks < |blocks|
        invariant skipBlocks <= |blocks| && !found
        invariant forall k :: 0 <= k < skipBlocks ==> Value().blocks[k].index < blockIndex
      {
        var x := blocks[skipBlocks];
        assert StoredOf(x) == Value().blocks[skipBlocks];
        if x.block.blockIndex == blockIndex {
          found := true;
          break;
        }
        if x.block.blockIndex < blockIndex {
          skipBlocks := skipBlocks + 1;
        } else {
          break;
        }
      }
      SkipIs(Value().blocks, blockIndex, skipBlocks);
    }

    method PlaceBlock(pb: PendingBlock, skipBlocks: nat)
      requires skipBlocks == Skip(Value().blocks, pb.block.blockIndex)
      modifies this
      ensures Value() == old(Value()).(blocks := Place(old(Value()).blocks, StoredOf(pb)))
      ensures forall x :: x in blocks <==> x in old(blocks) || x == pb
    {
      ghost var before := blocks;
      blocks := Inserted(blocks, skipBlocks, pb);
      SameBlocks(before, skipBlocks, pb);
    }

    lemma SameBlocks(before: seq<PendingBlock>, k: nat, pb: PendingBlock)
      requires k <= |before|
      ensures forall x :: x in before[..k] + [pb] + before[k..] <==> x in before || x == pb
    {
      assert before == before[..k] + before[k..];
    }

    /** Makes room at skipBlocks by doubling the entry there, and overwrites it. */
    static method Inserted<T>(s: seq<T>, skipBlocks: nat, x: T) returns (r: seq<T>)
      requires skipBlocks <= |s|
      ensures r == s[..skipBlocks] + [x] + s[skipBlocks..]
    {
      if skipBlocks == 0 {
        r := [x] + s;
      } else if skipBlocks == |s| {
        r := s + [x];
      } else {
        r := s[..skipBlocks + 1] + s[skipBlocks..];
        r := r[skipBlocks := x];
      }
    }

    method HashBlocks()
      modifies this`hash, this`hashBlockIndex
      ensures Value() == HashFrom(old(Value()), 0)
    {
      ghost var start := Value();
      for i := 0 to |blocks|
        invariant HashFrom(Value(), i) == HashFrom(start, 0)
      {
        var x := blocks[i];
        assert StoredOf(x) == Value().blocks[i];
        if x.block.blockIndex < hashBlockIndex {
          continue;
        }
        if hashBlockIndex != x.block.blockIndex {
          break;
        }
        ghost var before := Value();
        hash := hash + x.data[..];
        hashBlockIndex := hashBlockIndex + 1;
        assert Value() == before.(hashed := before.hashed + before.blocks[i].data, hashIndex := before.hashIndex + 1);
      }
    }

    method InsertBlock(pb: PendingBlock) returns (inserted: bool)
      requires HashedToGap(Value())
      modifies this
      ensures inserted == !Has(old(Value()).blocks, pb.block.blockIndex)
      ensures Value() == Insert(old(Value()), StoredOf(pb)) && HashedToGap(Value())
      ensures forall x :: x in blocks <==> x in old(blocks) || (inserted && x == pb)
    {
      hide HashedToGap, HashFrom, Place, Has, Skip, Contents;
      ghost var start, b := Value(), StoredOf(pb);
      InsertKeepsFirst(start, b);
      var found, skipBlocks := SkipBlocks(pb.block.blockIndex);
      assert Value() == start && StoredOf(pb) == b;
      if found {
        return false;
      }
      PlaceBlock(pb, skipBlocks);
      HashBlocks();
      assert Value() == HashFrom(start.(blocks := Place(start.blocks, b)), 0);
      return true;
    }

    function Hash(): seq<byte>
      reads this
    {
      md4(hash)
    }
  }
}
