/** TranslationBlock: the growable buffer translated words are written to. */
module CodeBuffer {
  import opened Instructions

  const INITIAL_WORDS := 2048

  /** Capacities the buffer can have: the initial one, doubled some number of times. */
  predicate IsCapacity(n: nat) {
    n == INITIAL_WORDS || (n > INITIAL_WORDS && n % 2 == 0 && IsCapacity(n / 2))
  }

  function Power2(k: nat): (p: nat)
    ensures p >= 1
  {
    if k == 0 then 1 else 2 * Power2(k - 1)
  }

  /** Every capacity is 2048 * 2^k. */
  lemma {:induction false} CapacityIsPower(n: nat)
    ensures IsCapacity(n) <==> exists k: nat :: n == INITIAL_WORDS * Power2(k)
  {
    if IsCapacity(n) {
      if n == INITIAL_WORDS {
        assert n == INITIAL_WORDS * Power2(0);
      } else {
        CapacityIsPower(n / 2);
        var k: nat :| n / 2 == INITIAL_WORDS * Power2(k);
        assert n == INITIAL_WORDS * Power2(k + 1);
      }
    } else if k: nat :| n == INITIAL_WORDS * Power2(k) {
      if k > 0 {
        assert n / 2 == INITIAL_WORDS * Power2(k - 1);
        CapacityIsPower(n / 2);
      }
    }
  }

  class TranslationBlock {
    var container: array<Word>
    var current: nat // the write cursor, as an offset into container
    var currentSize: nat
    var allocatedSize: nat

    ghost predicate Valid()
      reads this
    {
      && container.Length == allocatedSize
      && current == currentSize < allocatedSize
      && IsCapacity(allocatedSize)
      && (allocatedSize == INITIAL_WORDS || allocatedSize <= 2 * currentSize)
    }

    /** The words pushed since the last clear. */
    ghost function Contents(): seq<Word>
      reads this, container
      requires Valid()
    {
      container[..currentSize]
    }

    constructor ()
      ensures Valid() && Contents() == [] && fresh(container)
    {
      container := new Word[INITIAL_WORDS];
      current, currentSize, allocatedSize := 0, 0, INITIAL_WORDS;
    }

    method Size() returns (n: nat)
      requires Valid()
      ensures n == |Contents()|
    {
      n := currentSize;
    }

    /** Called when the last free word was just used. */
    method ExpandBlock()
      requires container.Length == allocatedSize && current == currentSize == allocatedSize && IsCapacity(allocatedSize)
      modifies this
      ensures Valid() && fresh(container) && currentSize == old(currentSize) && allocatedSize == 2 * old(allocatedSize)
      ensures Contents() == old(container[..])
    {
      var next := new Word[allocatedSize * 2];
      forall i | 0 <= i < allocatedSize {
        next[i] := container[i];
      }
      assert next[..allocatedSize] == container[..];
      container := next;
      allocatedSize := allocatedSize * 2;
    }

    method PushBack(value: Word)
      requires Valid()
      modifies this, container
      ensures Valid() && Contents() == old(Contents()) + [value]
      ensures container == old(container) || fresh(container)
    {
      container[current] := value;
      current := current + 1;
      currentSize := currentSize + 1;
      assert container[..currentSize] == old(Contents()) + [value];
      if currentSize >= allocatedSize {
        assert container[..] == container[..currentSize];
        ExpandBlock();
      }
    }

    method Clear()
      requires Valid()
      modifies this, container
      ensures Valid() && Contents() == [] && allocatedSize == INITIAL_WORDS
      ensures container == old(container) || fresh(container)
    {
      if allocatedSize > INITIAL_WORDS {
        container := new Word[INITIAL_WORDS];
        allocatedSize := INITIAL_WORDS;
      } else {
        // memset is given a word count for a byte count: the first quarter of the old words is wiped
        forall i | 0 <= i < currentSize / 4 {
          container[i] := 0;
        }
      }
      currentSize := 0;
      current := 0;
    }
  }
}
