/**
 * The struct that `dynbox!(DynBox: MyTrait)` generates: a fixed array of
 * `SIZE` bytes and a vtable tag, updated in place by `set` and `clear`.
 * The ghost fields `live` and `drops` record which instance the bytes
 * belong to and whose destructor has run; `Valid` ties the real fields to
 * them through the invariant of DynBoxSpec.
 */
module DynBoxImpl {
  import opened Wrappers
  import opened Occupants
  import Spec = DynBoxSpec

  class DynBox {
    var store: array<u8>
    var vtable: nat
    ghost var live: Option<Spec.Instance>
    ghost var drops: seq<Spec.Instance>

    ghost function Abs(): Spec.Box
      reads this, store
    {
      Spec.Box(store[..], vtable, live, drops)
    }

    ghost predicate Valid()
      reads this, store
    {
      Spec.Valid(Abs())
    }

    /** `new`: an empty box with a zeroed store of `size` bytes. */
    constructor (size: nat)
      ensures Valid() && fresh(store)
      ensures Abs() == Spec.New(size)
    {
      store := new u8[size](_ => 0);
      vtable := 0;
      live := None;
      drops := [];
    }

    /** `empty`. */
    method Empty() returns (e: bool)
      requires Valid()
      ensures e == Spec.Empty(Abs())
      ensures e <==> live == None
    {
      e := vtable == 0;
    }

    /** `get`: the owned value, or None when the box is empty. */
    method Get() returns (r: Option<Value>)
      requires Valid()
      ensures r == Spec.Get(Abs())
      ensures r == if live.Some? then Some(live.value.value) else None
    {
      Spec.GetReturnsOccupant(Abs());
      if vtable == 0 {
        r := None;
      } else {
        r := Spec.Reinterpret(vtable, store[..]);
      }
    }

    /** `get_mut`: the same view as `get`; `MyTrait` has no method that mutates through it. */
    method GetMut() returns (r: Option<Value>)
      requires Valid()
      ensures r == Spec.Get(Abs())
      ensures r == if live.Some? then Some(live.value.value) else None
    {
      Spec.GetReturnsOccupant(Abs());
      if vtable == 0 {
        r := None;
      } else {
        r := Spec.Reinterpret(vtable, store[..]);
      }
    }

    /** `clear`: drops the occupant once, in place, and resets the tag; the bytes stay as they were. */
    method Clear()
      requires Valid()
      modifies this
      ensures Valid() && store == old(store)
      ensures Abs() == Spec.Clear(old(Abs()))
      ensures live == None && drops == old(drops) + Spec.Held(old(Abs()))
    {
      if vtable != 0 {
        drops := drops + [live.value];
        vtable := 0;
        live := None;
      }
    }

    /**
     * `set`: clears the box, then panics if the value is larger than the
     * store; otherwise writes the value's tag and bytes and takes ownership
     * of it.  `panicked` reports the failed size check.
     */
    method Set(v: Value, ghost id: nat) returns (panicked: bool)
      requires Valid()
      modifies this, store
      ensures Valid() && store == old(store)
      ensures Abs() == Spec.Set(old(Abs()), Spec.Instance(id, v)).box
      ensures panicked == Spec.Set(old(Abs()), Spec.Instance(id, v)).Panicked?
    {
      var e := Empty();
      if !e {
        Clear();
      }
      ghost var cleared := store[..];
      var size := Size(v);
      if size > store.Length {
        return true;
      }
      panicked := false;
      vtable := VTable(TypeOf(v));
      var bytes := Repr(v);
      forall i | 0 <= i < size {
        store[i] := bytes[i];
      }
      live := Some(Spec.Instance(id, v));
      assert store[..] == bytes + cleared[size..];
    }

    /** `Drop::drop`: destroying the box clears it, so an occupant is dropped exactly once. */
    method Drop()
      requires Valid()
      modifies this
      ensures Valid() && store == old(store)
      ensures Abs() == Spec.Clear(old(Abs()))
      ensures Spec.Empty(Abs()) && drops == old(drops) + Spec.Held(old(Abs()))
    {
      Clear();
    }
  }

  /** The unit test `new_dynbox_is_empty`. */
  method NewDynBoxIsEmpty() returns (empty: bool, got: Option<Value>, gotMut: Option<Value>)
    ensures empty && got == None && gotMut == None
  {
    var b := new DynBox(64);
    empty := b.Empty();
    got := b.Get();
    gotMut := b.GetMut();
  }

  /** The unit test `set_dynbox_is_not_empty_and_clear_makes_it_empty`. */
  method SetDynBoxIsNotEmptyAndClearMakesItEmpty() returns (emptyAfterSet: bool, emptyAfterClear: bool)
    ensures !emptyAfterSet && emptyAfterClear
  {
    var b := new DynBox(64);
    var _ := b.Set(A, 0);
    emptyAfterSet := b.Empty();
    b.Clear();
    emptyAfterClear := b.Empty();
  }

  /** The unit test `zero_sized`: a zero-sized value is stored and dispatches to its own `foo`. */
  method ZeroSized() returns (emptyBefore: bool, gotBefore: Option<Value>, gotMutBefore: Option<Value>,
                              emptyAfter: bool, foo: nat, fooMut: nat)
    ensures emptyBefore && gotBefore == None && gotMutBefore == None
    ensures !emptyAfter && foo == 1 && fooMut == 1
  {
    var b := new DynBox(64);
    emptyBefore := b.Empty();
    gotBefore := b.Get();
    gotMutBefore := b.GetMut();
    var _ := b.Set(A, 0);
    emptyAfter := b.Empty();
    var got := b.Get();
    foo := Foo(got.value);
    var gotMut := b.GetMut();
    fooMut := Foo(gotMut.value);
  }

  /** The unit tests `set_smaller` (capacity 64) and `set_same_size` (capacity 16) with `B(42)`. */
  method SetFits(size: nat) returns (panicked: bool, foo: nat, fooMut: nat)
    requires size >= 16
    ensures !panicked && foo == 42 && fooMut == 42
  {
    var b := new DynBox(size);
    panicked := b.Set(B(42), 0);
    assert b.live == Some(Spec.Instance(0, B(42)));
    var got := b.Get();
    foo := Foo(got.value);
    var gotMut := b.GetMut();
    fooMut := Foo(gotMut.value);
    b.Clear();
  }

  /** The unit test `set_too_large_panics`: a 16-byte value does not fit in 4 bytes. */
  method SetTooLargePanics() returns (panicked: bool, empty: bool)
    ensures panicked && empty
  {
    var b := new DynBox(4);
    panicked := b.Set(B(42), 0);
    empty := b.Empty();
  }

  /** The unit test `drop_is_called_on_clear`, counting the drops of the `Droppable` instance. */
  method DropIsCalledOnClear(cell: u64) returns (ghost dropsAfterSet: nat, ghost dropsAfterClear: nat)
    ensures dropsAfterSet == 0 && dropsAfterClear == 1
  {
    ghost var d := Spec.Instance(0, Droppable(cell));
    var b := new DynBox(64);
    var _ := b.Set(Droppable(cell), 0);
    dropsAfterSet := multiset(b.drops)[d];
    b.Clear();
    dropsAfterClear := multiset(b.drops)[d];
  }

  /** The unit test `drop_is_called_on_set`: storing `A` drops the `Droppable` it replaces. */
  method DropIsCalledOnSet(cell: u64) returns (ghost dropsAfterFirstSet: nat, ghost dropsAfterSecondSet: nat)
    ensures dropsAfterFirstSet == 0 && dropsAfterSecondSet == 1
  {
    ghost var d := Spec.Instance(0, Droppable(cell));
    var b := new DynBox(64);
    var _ := b.Set(Droppable(cell), 0);
    dropsAfterFirstSet := multiset(b.drops)[d];
    var _ := b.Set(A, 1);
    dropsAfterSecondSet := multiset(b.drops)[d];
  }

  /** The unit test `drop_is_called_on_drop`: the box going out of scope drops its occupant. */
  method DropIsCalledOnDrop(cell: u64) returns (ghost dropsAfterSet: nat, ghost dropsAfterDrop: nat)
    ensures dropsAfterSet == 0 && dropsAfterDrop == 1
  {
    ghost var d := Spec.Instance(0, Droppable(cell));
    var b := new DynBox(64);
    var _ := b.Set(Droppable(cell), 0);
    dropsAfterSet := multiset(b.drops)[d];
    b.Drop();
    dropsAfterDrop := multiset(b.drops)[d];
  }
}
