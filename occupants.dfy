/**
 * The values a box can hold: the concrete types that implement `MyTrait`
 * in the crate's unit tests (a zero-sized `A`, a 16-byte `B(u128)` and an
 * 8-byte `Droppable` holding a reference), the trait's one method `foo`,
 * and the in-memory byte representation that `set` copies into the store.
 */
module Occupants {
  import opened Wrappers

  type u8 = x: nat | x < 0x100
  type u32 = x: nat | x < 0x1_0000_0000
  type u64 = x: nat | x < 0x1_0000_0000_0000_0000
  type u128 = x: nat | x < 0x1_0000_0000_0000_0000_0000_0000_0000_0000

  /** A value of one of the concrete types; `Droppable` carries the address of its `Cell`. */
  datatype Value = A | B(n: u128) | Droppable(cell: u64)

  /** The concrete type of a value, as the compiler knows it at the call site of `set`. */
  datatype TypeId = TypeA | TypeB | TypeDroppable

  function TypeOf(v: Value): TypeId
  {
    match v
    case A => TypeA
    case B(_) => TypeB
    case Droppable(_) => TypeDroppable
  }

  /** `size_of::<T>()` on a 64-bit target. */
  function SizeOf(t: TypeId): (r: nat)
    ensures r == 0 <==> t == TypeA
    ensures r <= 16
  {
    match t
    case TypeA => 0
    case TypeB => 16
    case TypeDroppable => 8
  }

  function Size(v: Value): nat
  {
    SizeOf(TypeOf(v))
  }

  /** The address of the type's `MyTrait` dispatch table; never the empty tag 0. */
  function VTable(t: TypeId): (r: nat)
    ensures r != 0
  {
    match t
    case TypeA => 1
    case TypeB => 2
    case TypeDroppable => 3
  }

  /** Which type, if any, a tag is the dispatch table of. */
  function TypeAt(vtable: nat): (r: Option<TypeId>)
    ensures forall t :: VTable(t) == vtable <==> r == Some(t)
  {
    if vtable == 1 then Some(TypeA)
    else if vtable == 2 then Some(TypeB)
    else if vtable == 3 then Some(TypeDroppable)
    else None
  }

  /** `MyTrait::foo` as each test type implements it; `B` truncates its `u128` to `u32`, which keeps a value that already fits. */
  function Foo(v: Value): (r: u32)
    ensures v.B? && v.n < 0x1_0000_0000 ==> r == v.n
  {
    match v
    case A => 1
    case B(n) => n % 0x1_0000_0000
    case Droppable(_) => 2
  }

  function Pow256(n: nat): (r: nat)
    ensures r > 0
  {
    if n == 0 then 1 else 256 * Pow256(n - 1)
  }

  /** The `n` low-order bytes of `x`, least significant first. */
  function ToLE(x: nat, n: nat): (r: seq<u8>)
    ensures |r| == n
  {
    if n == 0 then [] else [x % 256] + ToLE(x / 256, n - 1)
  }

  /** The unsigned integer whose little-endian bytes are `s`. */
  function FromLE(s: seq<u8>): (r: nat)
    ensures r < Pow256(|s|)
  {
    if s == [] then 0 else s[0] + 256 * FromLE(s[1..])
  }

  lemma DivideByBase(x: nat, p: nat)
    requires x < 256 * p
    ensures x / 256 < p && x == 256 * (x / 256) + x % 256
  {
  }

  lemma {:induction false} FromToLE(x: nat, n: nat)
    requires x < Pow256(n)
    ensures FromLE(ToLE(x, n)) == x
  {
    if n > 0 {
      var q := x / 256;
      DivideByBase(x, Pow256(n - 1));
      FromToLE(q, n - 1);
      var s := ToLE(x, n);
      assert s[1..] == ToLE(q, n - 1);
      assert FromLE(s) == (x % 256) + 256 * q;
    }
  }

  lemma {:induction false} ToFromLE(s: seq<u8>)
    ensures ToLE(FromLE(s), |s|) == s
  {
    if s != [] {
      ToFromLE(s[1..]);
      var x := FromLE(s);
      assert x % 256 == s[0] && x / 256 == FromLE(s[1..]);
      assert ToLE(x, |s|) == [s[0]] + s[1..];
    }
  }

  /** The bytes of a value as `set` copies them into the store. */
  function Repr(v: Value): (r: seq<u8>)
    ensures |r| == Size(v)
  {
    match v
    case A => []
    case B(n) => ToLE(n, 16)
    case Droppable(c) => ToLE(c, 8)
  }

  /** The value of type `t` that the bytes `bytes` represent. */
  function Read(t: TypeId, bytes: seq<u8>): (v: Value)
    requires |bytes| == SizeOf(t)
    ensures TypeOf(v) == t
  {
    match t
    case TypeA => A
    case TypeB =>
      assert Pow256(16) == 0x1_0000_0000_0000_0000_0000_0000_0000_0000;
      B(FromLE(bytes))
    case TypeDroppable =>
      assert Pow256(8) == 0x1_0000_0000_0000_0000;
      Droppable(FromLE(bytes))
  }

  /** Reading back the bytes of a value gives the same value. */
  lemma ReadRepr(v: Value)
    ensures Read(TypeOf(v), Repr(v)) == v
  {
    match v
    case A =>
    case B(n) =>
      assert Pow256(16) == 0x1_0000_0000_0000_0000_0000_0000_0000_0000;
      FromToLE(n, 16);
    case Droppable(c) =>
      assert Pow256(8) == 0x1_0000_0000_0000_0000;
      FromToLE(c, 8);
  }

  /** Every byte pattern of the right length is the representation of the value read from it. */
  lemma ReprRead(t: TypeId, bytes: seq<u8>)
    requires |bytes| == SizeOf(t)
    ensures Repr(Read(t, bytes)) == bytes
  {
    if t != TypeA {
      ToFromLE(bytes);
    }
  }
}
