/** `BaseEntity`: every persistent entity has a runtime class and a nullable
    `Long` id, and two entities are equal exactly when both agree. */
module Entities {
  import opened Types
  import opened Text

  /** The runtime classes that extend `BaseEntity` in the core. */
  datatype EntityClass = MemberClass | PostClass | PostCommentClass

  /** What `BaseEntity.equals` and `hashCode` look at: the class and the id. */
  datatype EntityRef = EntityRef(cls: EntityClass, id: Option<int>)

  /** `this.equals(other)`; `other == None` is a `null` argument. An object is
      always of its own class and has its own id, so the identity shortcut
      (`this === other`) never changes the answer and is folded in. */
  predicate Equals(self: EntityRef, other: Option<EntityRef>) {
    match other
    case None => false
    case Some(o) => self.cls == o.cls && self.id == o.id
  }

  /** Bitwise exclusive-or of the low `width` bits of two naturals. */
  function Xor(a: nat, b: nat, width: nat): (r: nat)
    ensures r < Pow2(width)
  {
    if width == 0 then 0
    else (if a % 2 == b % 2 then 0 else 1) + 2 * Xor(a / 2, b / 2, width - 1)
  }

  function Pow2(n: nat): (p: nat)
    ensures p >= 1
  {
    if n == 0 then 1 else 2 * Pow2(n - 1)
  }

  /** Kotlin's `Long.hashCode()`: the two 32-bit halves of the two's-complement
      value, exclusive-or'ed, read as a signed `Int`. */
  function LongHash(v: int): (h: int)
    requires IsLong(v)
    ensures IsInt(h)
  {
    var bits := if v < 0 then v + 0x1_0000_0000_0000_0000 else v;
    var x := Xor(bits / 0x1_0000_0000, bits % 0x1_0000_0000, 32);
    Pow2Of32();
    if x > INT_MAX then x - 0x1_0000_0000 else x
  }

  lemma Pow2Of32()
    ensures Pow2(32) == 0x1_0000_0000
  {
    assert Pow2(8) == 0x100;
    assert Pow2(16) == 0x1_0000;
    assert Pow2(24) == 0x100_0000;
  }

  /** `BaseEntity.hashCode()`: 0 for a `null` id, otherwise the id's hash. */
  function HashCode(e: EntityRef): (h: int)
    requires e.id.Some? ==> IsLong(e.id.value)
    ensures IsInt(h)
    ensures e.id.None? ==> h == 0
  {
    match e.id
    case None => 0
    case Some(v) => LongHash(v)
  }

  /** Two entities of one class that are both unsaved (null id) compare equal. */
  lemma UnsavedEntitiesEqual(cls: EntityClass)
    ensures Equals(EntityRef(cls, None), Some(EntityRef(cls, None)))
  {
  }

  lemma EqualsIsEquivalence(a: EntityRef, b: EntityRef, c: EntityRef)
    ensures Equals(a, Some(a))
    ensures !Equals(a, None)
    ensures Equals(a, Some(b)) <==> Equals(b, Some(a))
    ensures Equals(a, Some(b)) && Equals(b, Some(c)) ==> Equals(a, Some(c))
  {
  }

  /** Equal entities hash equally. */
  lemma HashConsistentWithEquals(a: EntityRef, b: EntityRef)
    requires a.id.Some? ==> IsLong(a.id.value)
    requires Equals(a, Some(b))
    ensures HashCode(a) == HashCode(b)
  {
  }

  /** Exclusive-or with zero keeps every bit. */
  lemma {:induction false} XorZero(b: nat, width: nat)
    requires b < Pow2(width)
    ensures Xor(0, b, width) == b
  {
    if width > 0 {
      XorZero(b / 2, width - 1);
    }
  }

  /** Exclusive-or with all ones flips every bit. */
  lemma {:induction false} XorOnes(b: nat, width: nat)
    requires b < Pow2(width)
    ensures Xor(Pow2(width) - 1, b, width) == Pow2(width) - 1 - b
  {
    if width > 0 {
      var ones := Pow2(width) - 1;
      assert ones % 2 == 1 && ones / 2 == Pow2(width - 1) - 1;
      XorOnes(b / 2, width - 1);
    }
  }

  /** An id that fits in a non-negative `Int` is its own hash. */
  lemma LongHashOfSmallId(v: int)
    requires 0 <= v <= INT_MAX
    ensures LongHash(v) == v
  {
    Pow2Of32();
    XorZero(v, 32);
  }

  /** A negative id that fits in an `Int` has its high half all ones, so its hash
      is its bitwise complement `-v - 1` (the id -1 hashes to 0). */
  lemma LongHashOfNegativeInt(v: int)
    requires INT_MIN <= v < 0
    ensures LongHash(v) == -v - 1
  {
    var bits := v + 0x1_0000_0000_0000_0000;
    assert bits / 0x1_0000_0000 == 0xFFFF_FFFF && bits % 0x1_0000_0000 == v + 0x1_0000_0000;
    Pow2Of32();
    XorOnes(v + 0x1_0000_0000, 32);
  }
}
