/** Allocation of card sequence numbers (getNextCardId in src/services/getNextCardId.ts). */
module CardIds {
  import opened Types
  import opened State

  /** The `count` consecutive numbers starting at `start`. */
  function IdBlock(start: int, count: nat): (ids: seq<int>)
    ensures |ids| == count
  {
    if count == 0 then [] else IdBlock(start, count - 1) + [start + count - 1]
  }

  /** The i-th number of a block is start + i, so a block has no repeats. */
  lemma {:induction false} IdBlockAt(start: int, count: nat, i: int)
    requires 0 <= i < count
    ensures IdBlock(start, count)[i] == start + i
  {
    if i < count - 1 {
      IdBlockAt(start, count - 1, i);
    }
  }

  /**
   * Two successive allocations return adjacent, disjoint blocks: together they are the
   * block the two counts would have allocated at once.
   */
  lemma {:induction false} SuccessiveBlocks(start: int, c1: nat, c2: nat)
    ensures IdBlock(start, c1) + IdBlock(start + c1, c2) == IdBlock(start, c1 + c2)
    ensures forall x :: x in IdBlock(start, c1) ==> x !in IdBlock(start + c1, c2)
  {
    if c2 > 0 {
      SuccessiveBlocks(start, c1, c2 - 1);
    }
    var first, second := IdBlock(start, c1), IdBlock(start + c1, c2);
    forall x | x in first ensures x < start + c1 {
      var i :| 0 <= i < c1 && first[i] == x;
      IdBlockAt(start, c1, i);
    }
    forall x | x in second ensures x >= start + c1 {
      var i :| 0 <= i < c2 && second[i] == x;
      IdBlockAt(start + c1, c2, i);
    }
  }

  /**
   * getNextCardId: read the sequence row, advance it by count, and return the numbers
   * from its old value on. A missing row is an error and changes nothing. The source runs
   * this in its own transaction, so the advance stays even when the caller later fails.
   */
  method GetNextCardId(w: World, count: nat) returns (r: Result<seq<int>>)
    requires w.Valid()
    modifies w`cardSequence
    ensures w.Valid()
    ensures old(w.cardSequence).None? ==> r == Err("Card sequence not found") && unchanged(w)
    ensures old(w.cardSequence).Some? ==>
      r == Ok(IdBlock(old(w.cardSequence).value, count)) &&
      w.cardSequence == Some(old(w.cardSequence).value + count)
  {
    if w.cardSequence.None? {
      return Err("Card sequence not found");
    }
    var nextId := w.cardSequence.value;
    w.cardSequence := Some(nextId + count);
    var ids := [];
    var i := 0;
    while i < count
      invariant 0 <= i <= count
      invariant ids == IdBlock(nextId, i)
    {
      ids := ids + [nextId + i];
      i := i + 1;
    }
    return Ok(ids);
  }
}
