/** Words of 32 bits, and `unsigned long` words of 64 bits of which only the low half counts. The
    sources of both digests compute in `unsigned long` and let the high half fill with whatever
    comes out of shifts and sums; only where bits could come back down do they mask it. The
    functions here name the operations, and the lemmas say that each respects the low half: it
    is what the same operation on 32-bit words gives. */
module Words {

  type Word = bv32
  type Long = bv64

  /** Addition of 32-bit words, modulo 2^32. */
  function Plus(a: Word, b: Word): Word { a + b }

  lemma PlusCommutes(a: Word, b: Word)
    ensures Plus(a, b) == Plus(b, a)
  {
  }

  lemma PlusSwaps(a: Word, b: Word, c: Word)
    ensures Plus(Plus(a, b), c) == Plus(Plus(a, c), b)
  {
    hide Plus;
    PlusIsSum(a, b);
    PlusIsSum(a, c);
    SumSwaps(a, b, c);
  }

  lemma PlusIsSum(a: Word, b: Word)
    ensures Plus(a, b) == a + b
  {
  }

  lemma SumSwaps(a: Word, b: Word, c: Word)
    ensures Plus(a + b, c) == Plus(a + c, b)
  {
  }

  function Low(x: Long): (r: Word) { (x & 0xFFFF_FFFF) as bv32 }

  /** Addition of `unsigned long`. */
  function Add(x: Long, y: Long): Long { x + y }

  function Mask(x: Long): Long { x & 0xFFFF_FFFF }

  function Wide(w: Word): Long { w as bv64 }

  lemma WideIs(w: Word)
    ensures Wide(w) == w as bv64
  {
  }

  lemma LowIsMask(x: Long)
    ensures Wide(Low(x)) == Mask(x)
  {
  }

  function Top(x: Long): Long { x & 0xFFFF_FFFF_0000_0000 }

  lemma TwoHalves(x: Long)
    ensures x == Add(Mask(x), Top(x))
  {
  }

  lemma AddSwaps(x: Long, y: Long, z: Long)
    ensures Add(Add(x, y), z) == Add(Add(x, z), y)
  {
    hide Add;
    AddIsSum(x, y);
    AddIsSum(x, z);
    LongSumSwaps(x, y, z);
  }

  lemma AddIsSum(x: Long, y: Long)
    ensures Add(x, y) == x + y
  {
  }

  lemma LongSumSwaps(x: Long, y: Long, z: Long)
    ensures Add(x + y, z) == Add(x + z, y)
  {
  }

  lemma TopVanishes(x: Long, y: Long)
    ensures Mask(Add(x, Top(y))) == Mask(x)
  {
  }

  lemma MaskedLeft(x: Long, y: Long)
    ensures Mask(Add(x, y)) == Mask(Add(Mask(x), y))
  {
    hide Mask, Top, Add;
    TwoHalves(x);
    AddSwaps(Mask(x), Top(x), y);
    TopVanishes(Add(Mask(x), y), x);
  }

  lemma AddCommutes(x: Long, y: Long)
    ensures Add(x, y) == Add(y, x)
  {
  }

  lemma MaskedAdd(x: Long, y: Long)
    ensures Mask(Add(x, y)) == Mask(Add(Mask(x), Mask(y)))
  {
    hide Mask, Add;
    MaskedLeft(x, y);
    AddCommutes(Mask(x), y);
    MaskedLeft(y, Mask(x));
    AddCommutes(Mask(y), Mask(x));
  }

  lemma LowOfMask(x: Long, y: Long)
    requires Mask(x) == Mask(y)
    ensures Low(x) == Low(y)
  {
  }

  lemma WideSum(a: Word, b: Word)
    ensures Add(a as bv64, b as bv64) == (a as bv64) + (b as bv64)
  {
  }

  lemma LowOfSum(a: Word, b: Word)
    ensures Low((a as bv64) + (b as bv64)) == a + b
  {
  }

  lemma PlainWideAdd(a: Word, b: Word)
    ensures Low(Add(a as bv64, b as bv64)) == Plus(a, b)
  {
    hide Low, Add, Plus;
    WideSum(a, b);
    LowOfSum(a, b);
    PlusIsSum(a, b);
  }

  lemma WideAdd(a: Word, b: Word)
    ensures Low(Add(Wide(a), Wide(b))) == Plus(a, b)
  {
    hide Low, Add, Plus, Wide;
    WideIs(a);
    WideIs(b);
    PlainWideAdd(a, b);
  }

  lemma LowAdd(x: Long, y: Long)
    ensures Low(Add(x, y)) == Plus(Low(x), Low(y))
  {
    hide Low, Add, Plus, Mask, Wide;
    MaskedAdd(x, y);
    LowOfMask(Add(x, y), Add(Mask(x), Mask(y)));
    LowIsMask(x);
    LowIsMask(y);
    WideAdd(Low(x), Low(y));
  }

  lemma LowOfWord(w: Word)
    ensures Low(w as Long) == w
  {
  }

  lemma LowAddWord(x: Long, w: Word)
    ensures Low(Add(x, w as Long)) == Plus(Low(x), w)
  {
    hide Low, Add, Plus;
    LowAdd(x, w as Long);
    LowOfWord(w);
  }
}
