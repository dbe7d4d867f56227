/** The EVM's block-hash lookup: a walk over at most 256 ancestors of the preferred block that stops
    early at the first smaller view. */
module BlockHashWalk {
  import opened Types
  import opened Consensus

  const MAX_ANCESTORS: nat := 256

  datatype Link = Link(hash: Hash, view: View)

  /** The stored ancestors of a block, itself first. */
  function Lineage(blocks: map<Hash, Block>, hash: Hash, count: nat): seq<Link>
    decreases count
  {
    if count == 0 || hash == ZERO_HASH || hash !in blocks then []
    else [Link(hash, blocks[hash].view)] + Lineage(blocks, blocks[hash].parentHash, count - 1)
  }

  /** A full scan: the first ancestor with the view. */
  function Scan(line: seq<Link>, view: View): Hash {
    if line == [] then ZERO_HASH
    else if line[0].view == view then line[0].hash
    else Scan(line[1..], view)
  }

  /** The early-exit search. */
  function Search(line: seq<Link>, view: View): Hash {
    if line == [] then ZERO_HASH
    else if line[0].view == view then line[0].hash
    else if line[0].view < view then ZERO_HASH
    else Search(line[1..], view)
  }

  method BlockHash(disk: Disk, number: nat) returns (r: Hash)
    ensures r == if number >= TWO_64 || disk.state.None? then ZERO_HASH
                 else Search(Lineage(disk.blocks, disk.state.value.preferredBlock, 256), number)
  {
    if number >= TWO_64 || disk.state.None? {
      return ZERO_HASH;
    }
    var current := disk.state.value.preferredBlock;
    for i := 0 to MAX_ANCESTORS
      invariant Search(Lineage(disk.blocks, current, MAX_ANCESTORS - i), number)
                == Search(Lineage(disk.blocks, disk.state.value.preferredBlock, MAX_ANCESTORS), number)
    {
      if current == ZERO_HASH || current !in disk.blocks {
        return ZERO_HASH;
      }
      var block := disk.blocks[current];
      ghost var line := Lineage(disk.blocks, current, MAX_ANCESTORS - i);
      assert line[1..] == Lineage(disk.blocks, block.parentHash, MAX_ANCESTORS - i - 1);
      if block.view == number {
        return current;
      }
      if block.view < number {
        return ZERO_HASH;
      }
      current := block.parentHash;
    }
    return ZERO_HASH;
  }

  /** Whenever a view exceeds an earlier one, it was already met before that one. */
  ghost predicate RisesOnlyToSeen(line: seq<Link>) {
    forall k, i :: 0 <= k < i < |line| && line[k].view < line[i].view ==> Seen(line, k, line[i].view)
  }

  ghost predicate Seen(line: seq<Link>, k: nat, view: View) {
    exists j :: 0 <= j < k <= |line| && line[j].view == view
  }

  lemma {:induction false} ScanFinds(line: seq<Link>, i: nat)
    requires i < |line| && forall j :: 0 <= j < |line| ==> line[j].hash != ZERO_HASH
    ensures Scan(line, line[i].view) != ZERO_HASH
  {
    if i > 0 {
      ScanFinds(line[1..], i - 1);
    }
  }

  lemma {:induction false} ScanMisses(line: seq<Link>, view: View)
    requires forall j :: 0 <= j < |line| ==> line[j].view != view
    ensures Scan(line, view) == ZERO_HASH
  {
    if line != [] {
      ScanMisses(line[1..], view);
    }
  }

  /** With no earlier smaller view in the way, the search agrees with the scan. */
  lemma {:induction false} SearchAgrees(line: seq<Link>, view: View)
    requires forall k, i :: 0 <= k < i < |line| && line[k].view < line[i].view == view ==> Seen(line, k, view)
    ensures Search(line, view) == Scan(line, view)
  {
    if line != [] && line[0].view != view {
      var rest := line[1..];
      if line[0].view < view {
        forall i | 0 <= i < |rest| ensures rest[i].view != view {
          assert rest[i] == line[i + 1];
        }
        ScanMisses(rest, view);
      } else {
        forall k, i | 0 <= k < i < |rest| && rest[k].view < rest[i].view == view ensures Seen(rest, k, view) {
          assert line[k + 1].view < line[i + 1].view == view;
          assert Seen(line, k + 1, view);
          var j :| 0 <= j < k + 1 <= |line| && line[j].view == view;
          assert rest[j - 1].view == view;
        }
        SearchAgrees(rest, view);
      }
    }
  }

  lemma {:induction false} SearchStops(line: seq<Link>, k: nat, view: View)
    requires k < |line| && line[k].view < view && forall j :: 0 <= j < k ==> line[j].view != view
    ensures Search(line, view) == ZERO_HASH
  {
    if line[0].view > view {
      SearchStops(line[1..], k - 1, view);
    }
  }

  lemma {:induction false} LineageNonzero(blocks: map<Hash, Block>, hash: Hash, count: nat)
    ensures |Lineage(blocks, hash, count)| <= count
    ensures forall j :: 0 <= j < |Lineage(blocks, hash, count)| ==> Lineage(blocks, hash, count)[j].hash != ZERO_HASH
    decreases count
  {
    if count > 0 && hash != ZERO_HASH && hash in blocks {
      LineageNonzero(blocks, blocks[hash].parentHash, count - 1);
    }
  }

  /** The lookup returns what a full scan of the first 256 ancestors would, for every view, if and
      only if views along the ancestors never rise to one not seen before. */
  lemma LookupIsScanIff(blocks: map<Hash, Block>, hash: Hash)
    ensures var line := Lineage(blocks, hash, MAX_ANCESTORS);
            (forall view :: Search(line, view) == Scan(line, view)) <==> RisesOnlyToSeen(line)
  {
    var line := Lineage(blocks, hash, MAX_ANCESTORS);
    if RisesOnlyToSeen(line) {
      forall view ensures Search(line, view) == Scan(line, view) {
        SearchAgrees(line, view);
      }
    } else {
      var k, i :| 0 <= k < i < |line| && line[k].view < line[i].view && !Seen(line, k, line[i].view);
      LineageNonzero(blocks, hash, MAX_ANCESTORS);
      ScanFinds(line, i);
      SearchStops(line, k, line[i].view);
    }
  }

  ghost predicate ViewsDescend(blocks: map<Hash, Block>) {
    forall h :: h in blocks && blocks[h].parentHash in blocks ==> blocks[blocks[h].parentHash].view < blocks[h].view
  }

  ghost predicate Descending(line: seq<Link>) {
    forall k, i :: 0 <= k < i < |line| ==> line[i].view < line[k].view
  }

  lemma {:induction false} LineageDescends(blocks: map<Hash, Block>, hash: Hash, count: nat)
    requires ViewsDescend(blocks)
    ensures Descending(Lineage(blocks, hash, count))
    decreases count
  {
    if count > 0 && hash != ZERO_HASH && hash in blocks {
      var rest := Lineage(blocks, blocks[hash].parentHash, count - 1);
      LineageDescends(blocks, blocks[hash].parentHash, count - 1);
      assert rest != [] ==> rest[0].view < blocks[hash].view;
    }
  }

  /** In particular the lookup is exact when every block has a larger view than its parent. */
  lemma LookupExactWhenDescending(blocks: map<Hash, Block>, hash: Hash, view: View)
    requires ViewsDescend(blocks)
    ensures var line := Lineage(blocks, hash, MAX_ANCESTORS); Search(line, view) == Scan(line, view)
  {
    LineageDescends(blocks, hash, MAX_ANCESTORS);
    LookupIsScanIff(blocks, hash);
  }
}
