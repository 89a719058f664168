# Verified models of the trusted-execution experiments

Dafny models of the parts of this repository that compute or keep state, and
proofs of what they are for. Each module models one component:

* **Fixed-width RSA** (`Words`, `BigNum`, `BigNumBytes`, `Montgomery`, `RsaSign`,
  `RsaKey`, `RsaKeyStrings`): word arrays rewritten in place, on top of them
  bit-serial Montgomery products, exponentiation with a table of squares, and the
  Chinese-remainder signature of section 5.2.1 of RFC 8017. The layers are proved one on the other,
  from carries in words up to: the output is digest^d mod p * q, and verifies.
  `NumberTheory` proves what this needs: Fermat and the uniqueness of Chinese
  remainders.
* **Signed bignum** (`Digits`, `SignedBignum`, `DigitShifts`, `LongDivision`,
  `ModularInverse`, `RsaRoundTrip`): sums, products and shifts of base-16 numbers
  with signs, long division with estimated digits, the extended Euclidean inverse,
  exponentiation, and the RSA round trip for any two distinct primes.
* **Stage-2 translation tables of a realm** (`RttModel`, `RttCommands`, `RttSafety`,
  `RttTree`, `RttView`, `RttEffects`, `RttRipas`, `RttOutcomes`, `RttTreeOutcomes`,
  `RttRipasOutcomes`, `RttRuns`, `RttAssertion`, `RttMachine`): every
  command as one atomic step, with the hardware filling and evicting its translation
  cache between any two. The specification of each command is a function in
  `RttCommands`; `RttMachine` performs the command write by write and
  is proved to end where the function says; the invariant, the answer of each command
  in every state, the entry and the meaning of every address afterwards, and whole runs
  are proved about the functions.
* **Module loader** (`ModuleRefs`, `ModuleLoader`, `SectionLayout`): reference
  counts and use lists under every interleaving of their atomic steps, and the
  placement of sections.
* **Audit daemon queues** (`AuditQueues`).
* **Page-table builder** (`PageTables`), **GHASH multiplication** (`GaloisField`,
  `Ghash`) and **SHA-256** (`Sha256`, `Sha256Answer`, `FirstPrimes`).

`Arithmetic` and `Strides` hold what the components share.

## What the proofs found

* A fold of a level-2 table of unprotected blocks makes a level-1 block, because
  only fully assigned protected tables have their level checked; a later creation
  there fails an assertion of the monitor. In a realm made of whole root entries a run
  from activation gets there exactly if the root table stands at level 0 or 1 and some
  addresses are unprotected; with the boundary halfway, exactly if it stands at level 0
  or 1 (`RttAssertion.AssertionExactly`, `HalvedAssertsExactly`, `AssertionCanFail`,
  `RttRuns.CreateAsserts`). This presumes that `s2tte_create_assigned_ns`, which is not
  part of the repository, makes an entry of level 1 as it does of level 2.
* `bignum_rshift` divides by 2^n for n below 32. From there on `_rshift_word` moves only
  as many words as it drops: 2^64 shifted down by one word is zero
  (`BigNum.WordShiftIsWrong`). A shift by one word and some bits is right exactly for
  numbers of at most two words, a longer one exactly for numbers whose upper part
  repeats one pattern of words (`OneWordShift`, `LongShift`). The program shifts by one
  bit.
* `bignum_from_string` does not read the first length mod 8 digits; the shipped
  public exponent string would be read as zero. The signing path does not read it.
* `expmod` treats an exponent of zero as one, and for a negative base an odd power comes
  back negative, unless n divides the power before it: 2^0 modulo 5 is 2, (-1)^1 is -1
  and (-2)^3 is -8 (`ModularInverse.ExpModExactly`, `PowerOfZeroIsWrong`,
  `NegativePowerIsWrong`).
* With negative operands `gcd` ends exactly if one is zero, both are equal, or the
  negative one divides the positive one (`ModularInverse.Gcd`, `GcdNeverEnds`);
  `inverse` of a negative number ends exactly if that divides the modulus, and answers
  one, which is right only for -1 modulo 1 or 2 (`Inverse`, `InverseNeverEnds`,
  `NegativeInverseExactly`, `NegativeInverseIsWrong`).
* `divi` and `reminder` give quotient and remainder for negative operands only where
  these are equal, or where a dividend that is not negative is smaller than the
  magnitude of the divisor (`LongDivision.DivisionExactly`); a negative dividend below
  the divisor comes back unchanged, as -5 divided by 3 (`DivisionFailures`).
* `leftshift` writes one slot past the digits it allocates exactly when it shifts a
  single digit by other than whole digits and nothing is carried out of it
  (`DigitShifts.LeftShift`); every division of a larger number by one digit below eight
  does so, two divided by one for example (`LongDivision.SmallDivisorShiftsPast`,
  `DivisionFailures`). The model gives it a spare slot.
  `mult` of a zero allocates a size it has not set before.
* While a stop of a module is being tried, `module_refcount` is one too low
  (`ModuleRefs.RefcountExactly`, `RefcountTooLow`).
* When the audit daemon's socket is full while the retry queue is flushed, only the
  record that met the failure stays in the retry queue; the ones behind it are
  treated as if the daemon had gone, although the comment at `kauditd_hold_skb` keeps
  the hold queue for that case alone (`AuditQueues.RetryScatters`).
* `manual_remap_range` also maps the page the end address lies in, so its ranges are
  one page longer than half-open ones; the comment beside `PTE_FLAGS` gives 0x1A3
  where the flags are 0x1b. The model follows the code in both.

## How the code is read

* Word arrays have any width that is one more than a multiple of four, which is what
  the unrolled loops rely on; the source compiles 97 words. Digests are inputs.
* The hexadecimal strings of the key are those of the program, 64 digits to a line;
  `FromString` reads digits and letters, and the key has no other character.
* An entry of a translation table is a value of a datatype whose constructors and
  testers stand for the `s2tte_*` helpers, which are not part of the repository.
  There is one realm, with one root table of 512 entries. `places` records where each
  table hangs; no decision of a command reads it. Dropping the pages of a block from
  the cache drops every translation that starts in the block. The entry that stands in
  for a broken one before it is made anew is an unassigned one.
* `Strides.Offset` is a product and `Strides.Multiple` is divisibility
  (`OffsetIsProduct`, `MultipleIsAligned`); they are written as recursions to keep the
  proofs linear.
* `ModuleRefs.Mod` records beside the fields who accounts for the count; no step
  decides by it. The module mutex is held while a stop is tried and while uses change.
* Addresses mapped by the page-table builder are 64-bit addresses whose bits above the
  57 translated ones repeat the highest of these; a walk reads the low 57 bits.
* Netlink answers, free pages and the steps of other threads are inputs chosen freely.
* Alignments of sections are powers of two or zero.

## Model

| member | source | states |
|---|---|---|
| BigNum.Init | tetd_x86/s4/bignum.c:13-25 | clears every word, whatever the array held |
| BigNum.FromInt | tetd_x86/s4/bignum.c:39-62 | the array holds exactly the 64-bit number |
| BigNum.Assign | tetd_x86/s4/bignum.c:603-616 | the destination holds the old number of the source |
| BigNum.Cmp | tetd_x86/s4/bignum.c:491-512 | answers the sign of the difference of the two numbers |
| BigNum.IsZero | tetd_x86/s4/bignum.c:515-529 | answers whether the number is zero |
| BigNum.GetBit | tetd_x86/s4/bignum.c:630-634 | answers binary digit n of the number |
| BigNum.NumBits | tetd_x86/s4/bignum.c:645-656 | the number of bits, for numbers of at least two; it answers zero for zero and one |
| BigNum.Add | tetd_x86/s4/bignum.c:188-217 | the sum, reduced by the modulus of the width exactly when it does not fit; operands and result may be one array |
| BigNum.Sub | tetd_x86/s4/bignum.c:237-256 | the difference, wrapped exactly when it is negative; operands and result may be one array |
| BigNum.Or | tetd_x86/s4/bignum.c:463-474 | the bitwise or of the two numbers, across words |
| BigNum.ShiftBitsUp | tetd_x86/s4/bignum.c:719-729 | the number times 2^n, less a multiple of the modulus of the width |
| BigNum.ShiftBitsDown | tetd_x86/s4/bignum.c:375-384 | the number divided by 2^n: each word takes bits from the one above |
| BigNum.ShiftWordsDown | tetd_x86/s4/bignum.c:682-697 | the n words above the lowest one move down, all others are cleared |
| BigNum.Rshift | tetd_x86/s4/bignum.c:364-385 | what a shift leaves of the number, for every shift inside the array |
| BigNum.ShortShift | tetd_x86/s4/bignum.c:364-385 | below one word a shift divides by 2^n |
| BigNum.OneWordShift | tetd_x86/s4/bignum.c:364-385 | a shift by one word and some bits divides by 2^n exactly for numbers of at most two words |
| BigNum.LongShift | tetd_x86/s4/bignum.c:364-385 | a shift by w > 1 words and b bits divides by 2^n exactly if the number above its lowest 32 + b bits is one pattern of w - 1 words repeated up to word 2w |
| BigNum.WordShiftIsWrong | tetd_x86/s4/bignum.c:364-385 | 2^64 shifted down by one word comes out as zero |
| BigNum.ShiftWordsUp | tetd_x86/s4/bignum.c:700-716 | the number times a power of the word base, less a multiple of the modulus of the width |
| BigNum.Lshift | tetd_x86/s4/bignum.c:337-362 | the number times 2^n for every n, less a multiple of the modulus of the width |
| BigNum.Mul | tetd_x86/s4/bignum.c:259-288 | the product of the two numbers, less a multiple of the modulus of the width |
| BigNum.Div | tetd_x86/s4/bignum.c:291-334 | ends, and gives the quotient, also where doubling the divisor would overflow the top word |
| BigNum.DivMod | tetd_x86/s4/bignum.c:429-446 | a = q * b + r with r < b |
| BigNum.Mod | tetd_x86/s4/bignum.c:415-427 | the remainder |
| BigNum.DivideRound | tetd_x86/s4/bignum.c:322-332 | one round of the division keeps quotient * divisor + rest equal to the dividend: the quotient bit is new, so the or adds it |
| Words.ValOr | tetd_x86/s4/bignum.c:470-473 | or word by word is or of the numbers |
| Words.OrDisjoint | tetd_x86/s4/bignum.c:328 | or of numbers without a common bit is their sum |
| BigNumBytes.FromString | tetd_x86/s4/bignum.c:86-109 | reads the hexadecimal string from its end in groups of eight digits; the first |s| mod 8 digits are not read |
| RsaKeyStrings.HexLetters | tetd_x86/s4/bignum.c:104 | 0123456789abcdef reads as that number, and the capitals as the small letters |
| BigNumBytes.FromStringExact | tetd_x86/s4/bignum.c:96-108 | the number read is the number written exactly when the digits left out are zeros |
| BigNumBytes.PublicExponentIsDropped | tetd_x86/s4/sign_main.c:35 | the public exponent string 010001 would be read as zero |
| BigNumBytes.BytesToBn | tetd_x86/s4/sign_main.c:185-193 | the array holds the number the big-endian bytes denote |
| BigNumBytes.BnToBytes | tetd_x86/s4/sign_main.c:196-202 | the bytes are the big-endian form of the number, reduced to their length |
| Montgomery.MontMult | tetd_x86/s4/sign_main.c:120-133 | out < m and out * 2^bits is x * y modulo m, for every odd m, y < m, x < 2^bits; no word array overflows |
| Montgomery.ProductRound | tetd_x86/s4/sign_main.c:123-130 | after each round t * 2^n = (x mod 2^n) * y + u * m, and t < y + m |
| Montgomery.ProductStandsFor | tetd_x86/s4/sign_main.c:120-133 | a Montgomery product of two numbers in Montgomery form is their product in Montgomery form |
| Montgomery.InitLut | tetd_x86/s4/sign_main.c:112-117 | row i of the table holds x^(2^i) * 2^bits modulo m, for every i up to the bit length |
| Montgomery.ModExp | tetd_x86/s4/sign_main.c:136-150 | x^(e mod 2^eBits) mod m |
| Montgomery.ModExpLut | tetd_x86/s4/sign_main.c:153-177 | the same number, read off the table the initialisation built |
| RsaSign.RSquared | tetd_x86/s4/sign_main.c:227-237 | 2^(2 * bits) modulo the prime |
| RsaSign.HalfSign | tetd_x86/s4/sign_main.c:239-252 | digest^exponent modulo one prime |
| RsaSign.Recombine | tetd_x86/s4/sign_main.c:254-268 | m2 + ((m1 - m2) * qinv mod p) * q without overflow, in both branches of the comparison |
| RsaSign.GarnerResidues | tetd_x86/s4/sign_main.c:254-268 | the recombination has the residue m1 modulo p and m2 modulo q and lies below p * q |
| RsaSign.SignatureIsPower | tetd_x86/s4/sign_main.c:239-268 | the recombined number is m^d mod p * q for every m |
| RsaSign.SignatureVerifies | tetd_x86/s4/sign_main.c:205-271 | raising it to e returns m |
| RsaSign.Sign | tetd_x86/s4/sign_main.c:223-271 | with the key loaded, the output is the big-endian form of digest^d mod p * q, and raising it to e gives the digest back |
| RsaSign.LoadHex | tetd_x86/s4/sign_main.c:180-182 | a string of whole groups of eight digits is loaded without dropping a digit |
| RsaSign.LoadAndSign | tetd_x86/s4/sign_main.c:205-271 | the same from the hexadecimal strings of the key |
| RsaKey.Consistent | tetd_x86/s4/sign_main.c:20-96 | the shipped key: p * q is the modulus, the CRT exponents and the inverse fit, e * d is one modulo p - 1 and q - 1 |
| RsaKey.ShippedKeyValid | tetd_x86/s4/sign_main.c:20-96 | the shipped key is valid exactly when its two factors are prime |
| RsaKey.KeySizes | tetd_x86/s4/sign_main.c:53-95 | both factors have 1536 bits, and the other parts no more |
| RsaKeyStrings.LoadedP | tetd_x86/s4/sign_main.c:53-59 | the string of the first prime denotes its lines, taken as hexadecimal numbers |
| RsaKey.ShippedP | tetd_x86/s4/sign_main.c:53-59 | it loads as the prime p of the key |
| RsaKey.ShippedQ | tetd_x86/s4/sign_main.c:62-68 | the second string as q |
| RsaKey.ShippedDP | tetd_x86/s4/sign_main.c:71-77 | the third as the exponent for p |
| RsaKey.ShippedDQ | tetd_x86/s4/sign_main.c:80-86 | the fourth as the exponent for q |
| RsaKey.ShippedQINV | tetd_x86/s4/sign_main.c:89-95 | the last as the inverse of q |
| RsaKey.SignShipped | tetd_x86/s4/sign_main.c:205-271 | with the strings of the program, read digit by digit, and a digest of 32 bytes the 384 bytes of output are digest^d mod n, and verify |
| NumberTheory.Fermat | tetd_x86/s4/sign_main.c:239-252 | Fermat for every prime: a^p is a modulo p |
| NumberTheory.ChineseUnique | tetd_x86/s4/sign_main.c:254-269 | residues modulo two distinct primes determine the residue modulo their product |
| SignedBignum.Compare | tetd_x86/rsa_test/additional_rsa_algorithm/bignum.c:495-519 | the sign of the difference, for all signs; minus zero comes before zero |
| SignedBignum.Add | tetd_x86/rsa_test/additional_rsa_algorithm/bignum.c:82-120 | the sum, for all signs, again without leading zeros; minus zero comes only from two minus zeros |
| SignedBignum.Sub | tetd_x86/rsa_test/additional_rsa_algorithm/bignum.c:125-195 | the difference, for all signs, again without leading zeros |
| SignedBignum.Mult | tetd_x86/rsa_test/additional_rsa_algorithm/bignum.c:199-235 | the product, for all signs, without leading zeros and never minus zero |
| SignedBignum.ValueUnique | tetd_x86/rsa_test/additional_rsa_algorithm/bignum.c:495-519 | a canonical number is determined by its value |
| Digits.ChainTop | tetd_x86/rsa_test/additional_rsa_algorithm/bignum.c:102-117 | a chain of carries adds up exactly |
| DigitShifts.Length | tetd_x86/rsa_test/additional_rsa_algorithm/bignum.c:641-651 | four bits per digit, less the leading zero bits of the top one |
| DigitShifts.LengthBounds | tetd_x86/rsa_test/additional_rsa_algorithm/bignum.c:641-651 | the length tells which powers of two the number lies between |
| DigitShifts.LeftShift | tetd_x86/rsa_test/additional_rsa_algorithm/bignum.c:525-551 | the magnitude times 2^k, for every k, without leading zeros, always positive; it writes past its slots exactly for a single digit shifted by other than whole digits that carries nothing |
| DigitShifts.RightShift | tetd_x86/rsa_test/additional_rsa_algorithm/bignum.c:555-587 | the magnitude divided by 2^k, for every k, canonical |
| LongDivision.EstimateBounds | tetd_x86/rsa_test/additional_rsa_algorithm/bignum.c:771-773 | the estimate of a quotient digit is never too small and at most two too large |
| LongDivision.SubtractMultiple | tetd_x86/rsa_test/additional_rsa_algorithm/bignum.c:775-787 | the window less q times the divisor, with truncating division corrected to carry down |
| LongDivision.DivideDigit | tetd_x86/rsa_test/additional_rsa_algorithm/bignum.c:771-797 | one quotient digit with its remainder below the divisor; the divisor is added back at most twice |
| LongDivision.NormalizedDivide | tetd_x86/rsa_test/additional_rsa_algorithm/bignum.c:751-807 | a = q * b + r with r < b for every normalised b that is not longer than a |
| LongDivision.ScaledDivision | tetd_x86/rsa_test/additional_rsa_algorithm/bignum.c:270-275 | scaling both operands keeps the quotient and scales the remainder |
| LongDivision.DivideMagnitudes | tetd_x86/rsa_test/additional_rsa_algorithm/bignum.c:252-282 | quotient and remainder of the magnitudes, for any divisor not zero and less than four bits longer, through shifting both operands; and when these shifts write past their slots |
| LongDivision.Divide | tetd_x86/rsa_test/additional_rsa_algorithm/bignum.c:594-636 | 0 for a smaller, 1 for an equal dividend, else the quotient of the magnitudes, for all signs; a / n for positive n and a not negative |
| LongDivision.Remainder | tetd_x86/rsa_test/additional_rsa_algorithm/bignum.c:242-283 | a smaller dividend itself, 0 for an equal one, else the remainder of the magnitudes, for all signs; a mod n for positive n and a not negative |
| LongDivision.DivisionExactly | tetd_x86/rsa_test/additional_rsa_algorithm/bignum.c:242-283 | for which operands of all signs the two are quotient and remainder |
| LongDivision.SmallDivisorShiftsPast | tetd_x86/rsa_test/additional_rsa_algorithm/bignum.c:622-628 | a divisor of one digit below eight makes the shifts write past their slots |
| LongDivision.DivisionFailures | tetd_x86/rsa_test/additional_rsa_algorithm/bignum.c:242-283 | 2 divided by 1 does; -5 divided by 3 leaves quotient 0 and remainder -5 |
| ModularInverse.Gcd | tetd_x86/rsa_test/additional_rsa_algorithm/bignum.c:709-736 | for all signs it ends with: the common divisors of the result are exactly those of a and b |
| ModularInverse.GcdNeverEnds | tetd_x86/rsa_test/additional_rsa_algorithm/bignum.c:709-736 | for all other operands no number of calls comes to a zero |
| ModularInverse.EuclideanStep | tetd_x86/rsa_test/additional_rsa_algorithm/bignum.c:675-692 | cofactors alternate in sign, p1 * r0 + p0 * r1 stays n, and they stay below n until the remainder is zero |
| ModularInverse.Inverse | tetd_x86/rsa_test/additional_rsa_algorithm/bignum.c:655-704 | 0 <= x < n; a * x is the greatest common divisor of a and n modulo n for positive a, and x is one for a negative a, which is taken only if it divides n |
| ModularInverse.InverseExactly | tetd_x86/rsa_test/additional_rsa_algorithm/bignum.c:655-704 | the result is an inverse exactly when a and n are coprime |
| ModularInverse.InverseNeverEnds | tetd_x86/rsa_test/additional_rsa_algorithm/bignum.c:672-692 | for a negative a that does not divide n no number of rounds leaves zero |
| ModularInverse.NegativeInverseExactly | tetd_x86/rsa_test/additional_rsa_algorithm/bignum.c:655-704 | the one answered for a negative a is its inverse exactly for -1 modulo 1 or 2 |
| ModularInverse.NegativeInverseIsWrong | tetd_x86/rsa_test/additional_rsa_algorithm/bignum.c:655-704 | -1 modulo 5 is such an input |
| ModularInverse.MultMod | tetd_x86/rsa_test/additional_rsa_algorithm/bignum.c:299-305 | the product modulo n, except that a negative one is returned unreduced |
| ModularInverse.ExpMod | tetd_x86/rsa_test/additional_rsa_algorithm/bignum.c:310-342 | a^b mod n for b > 0 and a not negative or b even; for negative a and odd b the even power below it times a, unreduced; b = 0 counts as 1 |
| ModularInverse.ExpModExactly | tetd_x86/rsa_test/additional_rsa_algorithm/bignum.c:310-342 | the result is a^b mod n exactly if: b > 0 or a is 1 modulo n, for a not negative; b > 0 is even, or b >= 3 and n divides a^(b - 1), for negative a |
| ModularInverse.PowerOfZeroIsWrong | tetd_x86/rsa_test/additional_rsa_algorithm/bignum.c:310-342 | 2^0 modulo 5 comes out as 2 |
| ModularInverse.NegativePowerIsWrong | tetd_x86/rsa_test/additional_rsa_algorithm/bignum.c:310-342 | (-1)^1 and (-2)^3 modulo 5 come out as -1 and -8 |
| RsaRoundTrip.MakeKey | tetd_x86/rsa_test/additional_rsa_algorithm/bignum.c:655-704 | for distinct primes and e coprime to (p - 1)(q - 1), d with e * d one modulo (p - 1)(q - 1) |
| RsaRoundTrip.PowerRoundTrip | tetd_x86/rsa_test/additional_rsa_algorithm/bignum.c:310-342 | e and then d return every message below p * q, the prime two included |
| RsaRoundTrip.RoundTrip | tetd_x86/rsa_test/additional_rsa_algorithm/rsa.c:153-159 | raising to e and d in either order with these operations returns the very number |
| RttMachine.Monitor.Create | tetd_cca/rmm/runtime/rmi/rtt.c:82-284 | the writes of the command take the state where its specification says, with the same outcome |
| RttMachine.Monitor.Fold | tetd_cca/rmm/runtime/rmi/rtt.c:286-471 | the same for folding, with break before make |
| RttMachine.Monitor.Destroy | tetd_cca/rmm/runtime/rmi/rtt.c:473-604 | the same for destroying |
| RttMachine.Monitor.MapNs | tetd_cca/rmm/runtime/rmi/rtt.c:617-746 | the same for mapping unprotected memory |
| RttMachine.Monitor.UnmapNs | tetd_cca/rmm/runtime/rmi/rtt.c:617-761 | the same for unmapping it |
| RttMachine.Monitor.DataCreate | tetd_cca/rmm/runtime/rmi/rtt.c:884-1019 | the same for creating data, from a copy or unknown |
| RttMachine.Monitor.DataDestroy | tetd_cca/rmm/runtime/rmi/rtt.c:1021-1117 | the same for destroying data |
| RttMachine.Monitor.SetBlocked | tetd_cca/rmm/runtime/rmi/rtt.c:1475-1601 | the same for closing and opening access to a page, which writes the entry and drops the translation |
| RttMachine.Monitor.UpdateRange | tetd_cca/rmm/runtime/rmi/rtt.c:1304-1363 | the loop over entries ends where its specification says |
| RttMachine.Monitor.SetRipas | tetd_cca/rmm/runtime/rmi/rtt.c:1365-1472 | the same for changing realm state, with the progress of the request |
| RttMachine.Monitor.Handle | tetd_cca/rmm/runtime/rmi/rtt.c:82-1601 | every command takes the machine one step of a run and keeps its invariant |
| RttTree.CreateKeeps | tetd_cca/rmm/runtime/rmi/rtt.c:82-284 | creation keeps the invariant of tree, reference counts, data ownership and translation cache |
| RttTree.FoldKeeps | tetd_cca/rmm/runtime/rmi/rtt.c:286-471 | folding keeps it |
| RttTree.DestroyKeeps | tetd_cca/rmm/runtime/rmi/rtt.c:473-604 | destroying keeps it |
| RttTreeOutcomes.CreateOutcome | tetd_cca/rmm/runtime/rmi/rtt.c:82-284 | the answer to a creation in every state: success exactly for valid arguments and an entry of the level above that is no table, nor a block that fails the assertion |
| RttTreeOutcomes.CreateLeaves | tetd_cca/rmm/runtime/rmi/rtt.c:82-284 | each address of the entry is translated by its part of the block one level down, every other as before; a valid entry leaves the cache |
| RttTreeOutcomes.FoldExactly | tetd_cca/rmm/runtime/rmi/rtt.c:361-439 | a table folds into an entry exactly if its entries, access aside, are the parts of that entry |
| RttTreeOutcomes.FoldOutcome | tetd_cca/rmm/runtime/rmi/rtt.c:286-471 | the answer to a fold in every state: success exactly if the table found folds into some entry |
| RttTreeOutcomes.FoldLeaves | tetd_cca/rmm/runtime/rmi/rtt.c:286-471 | afterwards the range of the table is translated by that entry, a level up, every other address as before; what was cached of the range is gone |
| RttTreeOutcomes.DestroyOutcome | tetd_cca/rmm/runtime/rmi/rtt.c:473-604 | the answer to a destruction in every state: success exactly if the table found holds nothing live |
| RttTreeOutcomes.DestroyLeaves | tetd_cca/rmm/runtime/rmi/rtt.c:473-604 | the range of the table becomes one destroyed or unprotected hole, every other address as before; what was cached is gone |
| RttSafety.MapNsKeeps | tetd_cca/rmm/runtime/rmi/rtt.c:617-746 | mapping unprotected memory keeps it |
| RttSafety.UnmapNsKeeps | tetd_cca/rmm/runtime/rmi/rtt.c:617-761 | unmapping keeps it |
| RttSafety.DataCreateKeeps | tetd_cca/rmm/runtime/rmi/rtt.c:884-1019 | creating data keeps it |
| RttSafety.DataDestroyKeeps | tetd_cca/rmm/runtime/rmi/rtt.c:1021-1117 | destroying data keeps it, and never fails its assertion |
| RttSafety.SetBlockedKeeps | tetd_cca/rmm/runtime/rmi/rtt.c:1475-1601 | changing access keeps it |
| RttOutcomes.MapNsOutcome | tetd_cca/rmm/runtime/rmi/rtt.c:617-746 | the answer to a mapping in every state: success exactly for valid arguments and an unprotected hole at the level |
| RttOutcomes.MapNsLeaves | tetd_cca/rmm/runtime/rmi/rtt.c:617-746 | exactly the addresses of the hole get the block; granules and cache stay |
| RttOutcomes.UnmapNsOutcome | tetd_cca/rmm/runtime/rmi/rtt.c:617-761 | success exactly for valid arguments and an unprotected mapping at the level |
| RttOutcomes.UnmapNsLeaves | tetd_cca/rmm/runtime/rmi/rtt.c:617-761 | exactly its addresses become a hole, and leave the cache |
| RttOutcomes.DataCreateOutcome | tetd_cca/rmm/runtime/rmi/rtt.c:884-1019 | success exactly for two different granules in the right states, a page-level protected hole, and a source that can be copied into a new realm |
| RttOutcomes.DataCreateLeaves | tetd_cca/rmm/runtime/rmi/rtt.c:884-1019 | exactly the page gets the granule, open, as RAM or in the state of the hole |
| RttOutcomes.DataDestroyOutcome | tetd_cca/rmm/runtime/rmi/rtt.c:1021-1117 | success exactly for a page that a page-level entry maps |
| RttOutcomes.DataDestroyLeaves | tetd_cca/rmm/runtime/rmi/rtt.c:1021-1117 | exactly the page becomes a hole, destroyed unless it was empty; RAM leaves the cache |
| RttOutcomes.SetBlockedOutcome | tetd_cca/rmm/runtime/rmi/rtt.c:1475-1601 | success exactly for a page of RAM with a page-level entry |
| RttOutcomes.SetBlockedLeaves | tetd_cca/rmm/runtime/rmi/rtt.c:1475-1601 | the page keeps granule and realm state and gets the access asked for; no cached translation contains it any more; every other entry stays |
| RttOutcomes.BlockThenUnblock | tetd_cca/rmm/runtime/rmi/rtt.c:1475-1601 | opening a closed page gives the state that opening it at once gives; if it was open, all but the cache is as before |
| RttOutcomes.FreshSees | tetd_cca/rmm/runtime/rmi/rtt.c:82-134 | a fresh realm is an empty hole up to the boundary and an unprotected hole above |
| RttRuns.ReachableIsSafe | tetd_cca/rmm/runtime/rmi/rtt.c:82-1601 | after any run: each count is the number of live entries, each table has one parent, each data granule one owner, each cached translation a valid entry |
| RttRuns.DestroyNeverOrphans | tetd_cca/rmm/runtime/rmi/rtt.c:473-604 | in a reachable state, destroying a table leaves every other table its parent and every data granule its owner |
| RttRuns.WalkThrough | tetd_cca/rmm/runtime/rmi/rtt.c:127-134 | a walk to an address goes through every table whose range contains it |
| RttRuns.CreateAsserts | tetd_cca/rmm/runtime/rmi/rtt.c:184-244 | creation fails an assertion exactly on an unprotected block at or above the smallest block level |
| RttRuns.FoldThenCreate | tetd_cca/rmm/runtime/rmi/rtt.c:82-471 | unfolding again what was folded succeeds, except where the fold made such a block |
| RttAssertion.AssertionCanFail | tetd_cca/rmm/runtime/rmi/rtt.c:82-471 | in a fresh realm with half of its addresses protected, a run of valid commands makes the assertion fail |
| RttAssertion.RunAsserts | tetd_cca/rmm/runtime/rmi/rtt.c:82-471 | from any state with an unmapped level-1 entry of unprotected addresses: create, 512 mappings, fold, and create again asserts |
| RttAssertion.AssertionExactly | tetd_cca/rmm/runtime/rmi/rtt.c:82-471 | in a realm of whole root entries some run from activation makes an assertion fail exactly if the root stands above level 2 and some addresses are unprotected |
| RttAssertion.HalvedAssertsExactly | tetd_cca/rmm/runtime/rmi/rtt.c:82-471 | with half of the addresses protected: exactly if the root stands above level 2 |
| RttView.CreatePreservesView | tetd_cca/rmm/runtime/rmi/rtt.c:82-284 | creation changes host state, realm state and physical address of no address |
| RttView.FoldPreservesView | tetd_cca/rmm/runtime/rmi/rtt.c:286-471 | neither does folding |
| RttView.CreateThenFold | tetd_cca/rmm/runtime/rmi/rtt.c:82-471 | a fold right after a creation succeeds and restores parent entry, both counts and the delegated granule |
| RttEffects.MapNsSees | tetd_cca/rmm/runtime/rmi/rtt.c:617-746 | exactly the addresses of the entry, all unmapped before, are mapped to the given memory; errors change nothing |
| RttEffects.UnmapNsSees | tetd_cca/rmm/runtime/rmi/rtt.c:617-761 | exactly the addresses of the entry are unmapped |
| RttEffects.DataCreateSees | tetd_cca/rmm/runtime/rmi/rtt.c:884-1019 | exactly the page, a hole before, gets the granule, as RAM or in the state of the hole |
| RttEffects.DataDestroySees | tetd_cca/rmm/runtime/rmi/rtt.c:1021-1117 | exactly the page becomes a hole, destroyed unless it was empty, and its granule is delegated again |
| RttEffects.DestroySees | tetd_cca/rmm/runtime/rmi/rtt.c:473-604 | exactly the range of the table becomes a hole, and no page of the realm was in it |
| RttEffects.SetBlockedSees | tetd_cca/rmm/runtime/rmi/rtt.c:1475-1601 | no address changes its meaning |
| RttEffects.MapThenUnmap | tetd_cca/rmm/runtime/rmi/rtt.c:617-761 | unmapping right after mapping succeeds and restores everything but the cache |
| RttEffects.CreateThenDestroyData | tetd_cca/rmm/runtime/rmi/rtt.c:884-1117 | destroying data right after creating it succeeds and restores every granule |
| RttRipas.UpdateMeaning | tetd_cca/rmm/runtime/rmi/rtt.c:1130-1194 | an accepted entry gets the requested state and keeps its mapping; destroyed ones change only with permission |
| RttRipasOutcomes.UpdateExactly | tetd_cca/rmm/runtime/rmi/rtt.c:1130-1194 | an entry is accepted exactly if it is a protected hole or page whose change is permitted; the new entry, and when it leaves the cache |
| RttRipas.RangeServes | tetd_cca/rmm/runtime/rmi/rtt.c:1304-1363 | the loop serves exactly the stretch from where it starts to where it stops |
| RttRipas.CallKeeps | tetd_cca/rmm/runtime/rmi/rtt.c:1365-1472 | one call moves the progress forward, never past its top, exactly when it succeeds |
| RttRipas.CallServes | tetd_cca/rmm/runtime/rmi/rtt.c:1365-1472 | one call serves exactly the chunk between old and new progress |
| RttRipasOutcomes.SetRipasOutcome | tetd_cca/rmm/runtime/rmi/rtt.c:1365-1472 | the answer in every state: for a valid call success exactly if its base starts an entry that ends by the top and whose change is permitted |
| RttRipasOutcomes.CallStops | tetd_cca/rmm/runtime/rmi/rtt.c:1304-1472 | a successful call stops only at the end of the table, before an entry that passes the top, at a table, or at an entry whose change is not permitted |
| RttEffects.RunServes | tetd_cca/rmm/runtime/rmi/rtt.c:1130-1472 | over any run of calls for one request, with tables created and folded in between, the chunks tile the range served so far, never pass its top, and no other address changes |
| ModuleRefs.ReachableCounts | tetd_x86/tetd_log/main.c:545-679 | after any interleaving each count is base reference plus holders, and source and target lists are one duplicate-free relation |
| ModuleRefs.StopReleases | tetd_x86/tetd_log/main.c:652-679 | a stop without force succeeds exactly when nobody holds the module at its second operation, and leaves it released |
| ModuleRefs.StopHeld | tetd_x86/tetd_log/main.c:652-679 | a stop that finds a holder leaves all modules as they were, and goes on exactly if forced |
| ModuleRefs.NoGetAfterStop | tetd_x86/tetd_log/main.c:829-842 | once a stop without force has succeeded the count stays zero, and no get and no new use succeeds |
| ModuleRefs.CountsNeverBelowZero | tetd_x86/tetd_log/main.c:652-665 | neither the assertion of the stop nor the warning of a put can fire |
| ModuleRefs.RefcountExactly | tetd_x86/tetd_log/main.c:689-692 | the count reported is the number of holders exactly while the base reference is in place |
| ModuleRefs.RefcountTooLow | tetd_x86/tetd_log/main.c:652-692 | a run after which a module with one user reports none |
| ModuleRefs.TryGetExactly | tetd_x86/tetd_log/main.c:829-842 | an uninterrupted get succeeds exactly for a module that is not going and still has its base reference or a holder |
| ModuleRefs.PutUndoesGet | tetd_x86/tetd_log/main.c:829-854 | giving back a reference restores the state before the get |
| ModuleRefs.PutUndoesGetAgain | tetd_x86/tetd_log/main.c:820-854 | exactly a holder gets another reference, and giving it back undoes that |
| ModuleRefs.RefCounts | tetd_x86/tetd_log/main.c:599-617 | a new use is exactly what is added to both lists, with one reference; nothing else changes |
| ModuleRefs.FreeReleasesTargets | tetd_x86/tetd_log/main.c:620-634 | freeing a module puts each module it used once and takes it off every list |
| ModuleRefs.FreeExactly | tetd_x86/tetd_log/main.c:1241-1285 | exactly a module that is going is freed, and it alone is gone |
| ModuleRefs.LoadThenUnload | tetd_x86/tetd_log/main.c:545-679 | loading, initialising, stopping and freeing an unused module restores the state |
| ModuleRefs.LoadThenFail | tetd_x86/tetd_log/main.c:2509-2632 | so does a load whose initialisation fails |
| ModuleLoader.Loader.AlreadyUses | tetd_x86/tetd_log/main.c:563-573 | finds whether a is among the sources of b |
| ModuleLoader.Loader.RefModule | tetd_x86/tetd_log/main.c:599-617 | steps to the specified state, with the error the kernel gives in each case; without memory the reference is given back |
| ModuleLoader.Loader.ModuleUnloadFree | tetd_x86/tetd_log/main.c:620-634 | the loop ends all uses |
| ModuleLoader.Loader.TryReleaseModuleRef | tetd_x86/tetd_log/main.c:652-664 | with any steps of other threads between its operations: zero leaves the module released, non-zero leaves it held and its base reference in place |
| ModuleLoader.Loader.TryStopModule | tetd_x86/tetd_log/main.c:666-679 | the module is going exactly on success, which needs force or leaves it released; left alone it is forced exactly if someone holds it |
| SectionLayout.Layout.GetOffset | tetd_x86/tetd_log/main.c:1481-1493 | an aligned offset behind what is there and what the architecture puts in front, less than one alignment away; the section ends at the new size |
| SectionLayout.Layout.LayoutSections | tetd_x86/tetd_log/main.c:1504-1575 | exactly the allocated sections get a place: of the memory type their flags say, aligned, within the final size, small data last and otherwise in order, without room wasted between or behind them |
| SectionLayout.KindByFlags | tetd_x86/tetd_log/main.c:1510-1541 | the table sends a section to the one memory type that its flags say |
| SectionLayout.Disjoint | tetd_x86/tetd_log/main.c:1481-1575 | two sections of one memory type share no byte |
| AuditQueues.Daemon.TrySend | tetd_x86/tetd_log/audit.c:773-794 | ends, with the last answer; a failure is ECONNREFUSED, EPERM or the last of retryLimit failures in a row, and no attempt follows one of these or a success |
| AuditQueues.Daemon.SendQueue | tetd_x86/tetd_log/audit.c:746-798 | ends even if the hook appends to the queue: a first part is delivered, all from the first failure on go to the hook |
| AuditQueues.Daemon.Reset | tetd_x86/tetd_log/audit.c:652-677 | the retry queue is emptied through the hook for holding |
| AuditQueues.Daemon.Round | tetd_x86/tetd_log/audit.c:844-919 | a first part of hold, retry and main queue each is delivered in that order, as far as the answers let it; the connection stands exactly if each drain got to its end or met a full socket; once broken nothing is left to be retried and, without a limit, all undelivered records are held in order; without a connection records are held or, if not kept, dropped; none is lost or doubled, main is multicast once, the limit kept |
| AuditQueues.RoundDelivers | tetd_x86/tetd_log/audit.c:844-919 | what a round delivers is a first part of each queue, in the order hold, retry, main |
| AuditQueues.RoundDropsNothing | tetd_x86/tetd_log/audit.c:844-919 | without a limit and with records kept a round drops nothing |
| AuditQueues.RoundSendsAll | tetd_x86/tetd_log/audit.c:844-919 | drains that get to the end deliver everything in order and keep the connection |
| AuditQueues.RoundStands | tetd_x86/tetd_log/audit.c:844-919 | the connection stands after a round exactly if every drain got to its end or met a full socket |
| AuditQueues.RoundBroke | tetd_x86/tetd_log/audit.c:886-898 | once it broke nothing is left to be retried |
| AuditQueues.RoundExactly | tetd_x86/tetd_log/audit.c:844-919 | without a limit, all queues after a round of a connected thread: what is held, what is to be retried, in order |
| AuditQueues.ConnectedRound | tetd_x86/tetd_log/audit.c:844-919 | what the answers decide: no refusal keeps the connection, no error delivers all |
| AuditQueues.Daemon.Thread | tetd_x86/tetd_log/audit.c:844-919 | over any rounds, with records arriving in between, every record is in exactly one place and was multicast once in order; all are delivered in order if a daemon is connected and no answer is an error; it stays connected if none but a full socket is; nothing is left to be retried without a connection; nothing is dropped without a limit |
| AuditQueues.FailAllConserves | tetd_x86/tetd_log/audit.c:561-639 | every failed record is in exactly one queue or dropped |
| AuditQueues.FailAllWithin | tetd_x86/tetd_log/audit.c:561-639 | no hook takes a queue over a nonzero limit |
| AuditQueues.HoldFlush | tetd_x86/tetd_log/audit.c:561-565 | a hold queue that fails to flush keeps exactly the undelivered records in their order |
| AuditQueues.RetryScatters | tetd_x86/tetd_log/audit.c:580-615 | after a full socket the record is retried, but all behind it go to the hold queue or are dropped |
| AuditQueues.FailAllMoves | tetd_x86/tetd_log/audit.c:580-639 | failed records wait in the queue they are meant for (retry, or hold without a daemon or after a reset), in order, as far as they fit; the rest is dropped |
| AuditQueues.FailAllDrops | tetd_x86/tetd_log/audit.c:580-590 | records that are not kept are dropped in order, and not counted as lost |
| PageTables.Remapper.NextTable | tetd_x86/map_page_test/page_test3/manual_remap_fullpt.c:73-82 | the next table of the walk, allocated if missing; no translation changes; it fails only without memory |
| PageTables.Remapper.MapOne | tetd_x86/map_page_test/page_test3/manual_remap_fullpt.c:66-118 | maps one page of canonical addresses through five levels, writable, write-through and uncached; only without memory for four tables it fails, and no translation changes |
| PageTables.Remapper.RemapRange | tetd_x86/map_page_test/page_test3/manual_remap_fullpt.c:54-122 | the pages before the address reached are mapped to phys + offset with these rights, every other canonical address translates as before; the end is reached unless memory runs out |
| PageTables.HangView | tetd_x86/map_page_test/page_test3/manual_remap_fullpt.c:73-82 | an empty table where nothing was mapped changes no translation |
| PageTables.MapView | tetd_x86/map_page_test/page_test3/manual_remap_fullpt.c:118 | writing the last entry changes the translation of exactly one page of the low 57 bits, and gives it these rights |
| PageTables.TableAccess | tetd_x86/map_page_test/page_test3/manual_remap_fullpt.c:73-82 | the entry of a new table is present and writable, no more |
| GaloisField.Commutes | tetd_x86/aes-gcm/aes_c_asm/aes_gcm_mod.c:18-50 | the product commutes |
| GaloisField.Associates | tetd_x86/aes-gcm/aes_c_asm/aes_gcm_mod.c:18-50 | the product is associative |
| GaloisField.Distributes | tetd_x86/aes-gcm/aes_c_asm/aes_gcm_mod.c:18-50 | the product is linear in both arguments |
| GaloisField.Identity | tetd_x86/aes-gcm/aes_c_asm/aes_gcm_mod.c:18-50 | the power x^0 is its identity |
| Ghash.IdentityBlock | tetd_x86/aes-gcm/aes_c_asm/aes_gcm_mod.c:18-50 | the block 0x80 00 ... 00 is that power, and the identity of the product |
| GaloisField.PowerReduced | tetd_x86/aes-gcm/aes_c_asm/aes_gcm_mod.c:42-45 | x^128 is 1 + x + x^2 + x^7, as section 6.3 of NIST SP 800-38D says |
| Ghash.ShiftReduce | tetd_x86/aes-gcm/aes_c_asm/aes_gcm_mod.c:36-46 | the byte loop multiplies by x |
| Ghash.XorInto | tetd_x86/aes-gcm/aes_c_asm/aes_gcm_mod.c:29-34 | the byte loop adds |
| Ghash.GhashMulBlock | tetd_x86/aes-gcm/aes_c_asm/aes_gcm_mod.c:18-50 | the result is the product of the two blocks in the field |
| Sha256.Process | tetd_x86/other/cli_test/module8/sha256.c:56-134 | the new state is that of section 6.2.2 of FIPS 180-4 for every whole block among the first length bytes |
| Sha256Answer.KnownAnswer | tetd_x86/other/cli_test/module8/sha256.c:56-134 | from the initial state of the standard the padded message abc gives its published digest |
| Sha256.Block | tetd_x86/other/cli_test/module8/sha256.c:64-122 | sixty-four rounds of the standard, with sixteen words instead of sixty-four |
| Sha256.NextWord | tetd_x86/other/cli_test/module8/sha256.c:97-103 | the next word of the schedule, kept in the place of the oldest |
| Sha256.LoadWord | tetd_x86/other/cli_test/module8/sha256.c:78 | four bytes or-ed together are the big-endian word |
| Sha256.RoundConstants | tetd_x86/other/cli_test/module8/sha256.c:18-36 | the table holds the first 32 bits of the fractions of the cube roots of the first 64 primes, in order and with none left out |
| Sha256.HashConcat | tetd_x86/other/cli_test/module8/sha256.c:56-134 | processing whole blocks and then more data is processing all of it |

## Left out

- BigNum.NumBits: is stated for numbers of at least two; for one the code answers zero.
- BigNum.Div: requires a divisor that is not zero, for which alone the loop of the code ends.
- RsaKey.ShippedKeyValid: does not prove the two 1536-bit factors prime; `RsaKey.SignShipped` presumes it.
- LongDivision.NormalizedDivide: digits are unbounded integers; all of them stay far below 2^31, so the C types do not wrap.
- RttMachine.Monitor.SetRipas: requests start page-aligned and end within the protected range, as the realm's request handler sees to.
- SectionLayout.Layout.LayoutSections: sizes do not wrap around 2^32.
- PageTables.Remapper.RemapRange: existing entries on the way lead to tables, not to huge pages, and carry no bits above the physical address; no table hangs below two entries; the rights that these entries take away are not looked at; first and last page lie in one half of the canonical addresses.
- Locks and buffer slots of the monitor, measurements, zeroing of granules, attributes of unprotected mappings, the addresses its commands report as next non-live ones, and reading or initialising entries.
- Concatenated root tables and more than one realm at a time.
- `str2bignum`, printing, random numbers and the probabilistic primality test of the signed bignum.
- `bignum_isqrt`, `bignum_pow`, `bignum_to_string` and increments of the fixed-width bignum: the signing path does not use them.
- The SHA-256 of the signing program is an external routine; its result is the digest given to the signature.
- Whole GCM encryption: its chaining and counter differ from NIST SP 800-38D; only the multiplication is modelled.
- AuditQueues.Daemon.Thread: records arrive and daemons connect between rounds; arrivals and resets by other threads in the middle of a round are not modelled.
- SignedBignum.Mult: the size that the code passes to the allocator for a zero product.
- ModularInverse.Inverse: a modulus that is not positive, for this and for the powers; and a first operand of zero, which is divided by.
- ModularInverse.GcdNeverEnds: speaks of the remainders as numbers; a division on the way may leave its arrays before.
- RttAssertion.AssertionExactly: realms whose end cuts a root entry.
- LongDivision.Divide: a zero divisor, and a negative divisor four or more bits longer than a larger dividend, for which the code divides by zero or leaves its arrays.
- ELF validation, modinfo, sysfs, kallsyms, RCU and message formatting in the loader and the audit code.
- Device nodes, hypercalls, timing, printing, netlink and file input and output.
