/** Entries of one size laid out one after the other: alignment, offsets and indices. */
module Strides {
  import opened Arithmetic

  /** Alignment, counted down in steps of the size. */
  predicate Multiple(a: nat, size: nat)
    requires size > 0
  {
    a == 0 || (a >= size && Multiple(a - size, size))
  }

  lemma {:induction false} MultipleIsAligned(a: nat, size: nat)
    requires size > 0
    ensures Multiple(a, size) <==> a % size == 0
  {
    if a >= size {
      MultipleIsAligned(a - size, size);
      ModAddMultiple(a - size, 1, size);
    } else {
      SmallMod(a, size);
    }
  }

  /** The distance of entry i from the start of its table. */
  function Offset(i: nat, size: nat): nat {
    if i == 0 then 0 else Offset(i - 1, size) + size
  }

  lemma {:induction false} OffsetIsProduct(i: nat, size: nat)
    ensures Offset(i, size) == i * size
  {
    if i == 0 {
    } else {
      OffsetIsProduct(i - 1, size);
      MulDistribute(i - 1, 1, size);
    }
  }

  /** The index of an address is its distance from the start of its table, in entries. */
  lemma IndexBySize(base: nat, ipa: nat, size: nat)
    requires size > 0 && base % (512 * size) == 0 && base <= ipa < base + 512 * size
    ensures base + ((ipa / size) % 512) * size <= ipa < base + ((ipa / size) % 512) * size + size
  {
    var k, off := base / (512 * size), ipa - base;
    MulAssoc(k, 512, size);
    IndexParts(base, k, size, off / size, off % size, ipa);
  }

  lemma IndexParts(base: nat, k: int, size: nat, i: int, rest: int, ipa: nat)
    requires size > 0 && base == (k * 512) * size && ipa - base == i * size + rest && 0 <= rest < size
    requires base <= ipa < base + 512 * size
    ensures (ipa / size) % 512 == i && i * size <= ipa - base < i * size + size
  {
    if i < 0 {
      MulMonotone(i, -1, size);
      assert false;
    }
    if i >= 512 {
      MulMonotone(512, i, size);
      assert false;
    }
    MulDistribute(k * 512, i, size);
    DivModUnique(ipa, size, k * 512 + i, rest);
    DivModUnique(k * 512 + i, 512, k, i);
  }

  lemma OneIndex(base: nat, ipa: nat, size: nat, i: nat, j: nat)
    requires size > 0
    requires base + Offset(i, size) <= ipa < base + Offset(i, size) + size
    requires base + Offset(j, size) <= ipa < base + Offset(j, size) + size
    ensures i == j
  {
    OffsetIsProduct(i, size);
    OffsetIsProduct(j, size);
    DivModUnique(ipa - base, size, i, ipa - base - i * size);
    DivModUnique(ipa - base, size, j, ipa - base - j * size);
  }

  /** Every entry of an aligned table is aligned to its own size. */
  lemma EntryAligned(base: nat, i: nat, size: nat)
    requires size > 0 && Multiple(base, 512 * size)
    ensures Multiple(base + Offset(i, size), size)
  {
    MultipleIsAligned(base, 512 * size);
    var k := base / (512 * size);
    assert base == k * (512 * size);
    MulAssoc(k, 512, size);
    ModOfMultiple(k * 512, size);
    OffsetIsProduct(i, size);
    ModAddMultiple(base, i, size);
    MultipleIsAligned(base + Offset(i, size), size);
  }
}
