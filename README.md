# dynbox: a verified model of the `dynbox!` container

The `dynbox!` macro generates a struct with a fixed-size byte array `store` of `SIZE` bytes
and a `vtable` tag. The struct holds zero or one value of any type that implements a chosen
trait, with `Option<dyn Trait>` semantics. Tag 0 means empty. `set` clears the box, panics if
the value is larger than `SIZE`, then writes the tag and the value's bytes and forgets the
value. `clear` runs the occupant's destructor and resets the tag. `get` and `get_mut` rebuild a
`&dyn Trait` from the store's address and the tag. Dropping the box clears it.

This project models that struct in Dafny:

- `Occupants` (occupants.dfy): the concrete types of the crate's unit tests: a zero-sized
  `A`, `B(u128)` and `Droppable` (which holds a reference). It gives their sizes, their non-zero
  vtable identifiers, `MyTrait::foo` as each type implements it, and the little-endian bytes
  that `set` copies. `Read` and the round-trip lemmas stand in for the unsafe reinterpretation
  of those bytes.
- `DynBoxSpec` (dynbox_spec.dfy): the box as a value. A state holds the store, the tag, the
  instance the box owns and a log of the instances whose destructor has run. Each operation is
  a function on states. Traces of `set`/`clear` calls are followed by the box's destruction.
- `DynBoxImpl` (dynbox.dfy): the struct as a class. `store: array<u8>` and `vtable: nat` are
  updated in place. Two ghost fields, `live` and `drops`, record the occupant and the drop
  log. Every method is proved against the functions of `DynBoxSpec`. The crate's unit tests
  become client methods whose postconditions are the tests' assertions.
- `Wrappers` (wrappers.dfy): the `Option` type returned by the accessors.

The size check in `set` runs after the previous occupant has been cleared
(src/lib.rs:44-50). A `set` that panics has therefore already dropped the previous value and
left the box empty.

## Model

| member | source | states |
|---|---|---|
| Occupants.VTable | src/lib.rs:52-54 | the tag `set` stores for a type is never the empty tag 0 |
| Occupants.TypeAt | src/lib.rs:92-95 | a tag names type `t` exactly when it is `t`'s dispatch table, so the tag recovers the stored type |
| Occupants.SizeOf | src/lib.rs:48 | `size_of::<T>()` on a 64-bit target: only `A` is zero-sized, and no test type exceeds 16 bytes, so every one fits the 16-byte box of `set_same_size` |
| Occupants.Foo | src/lib.rs:119-133 | `MyTrait::foo` for `A`, `B` and `Droppable`. `B::foo` (`self.0 as u32`) truncates to 32 bits and returns the field unchanged when it fits, so `B(42).foo()` is 42 |
| Occupants.ToLE | src/lib.rs:55-57 | the representation of an integer field has exactly its width in bytes |
| Occupants.FromLE | src/lib.rs:92-95 | the integer read back from `n` bytes is below 256^n, so it fits the field's type |
| Occupants.FromToLE | src/lib.rs:55-57 | reading back the bytes written for an integer gives the same integer |
| Occupants.ToFromLE | src/lib.rs:92-95 | writing the integer read from some bytes gives back those bytes |
| Occupants.Repr | src/lib.rs:48-57 | `set` copies exactly `size_of::<T>()` bytes of the value |
| Occupants.Read | src/lib.rs:92-95 | the value reconstructed for a type is of that type |
| Occupants.ReadRepr | src/lib.rs:52-57 | reconstructing a value from its copied bytes gives back the original value |
| Occupants.ReprRead | src/lib.rs:92-95 | every byte pattern of the type's size is the representation of the value read from it |
| DynBoxSpec.New | src/lib.rs:33-38 | a new box satisfies the tag/occupant invariant, has `SIZE` bytes and has dropped nothing |
| DynBoxSpec.NewIsEmpty | src/lib.rs:143-148 | a new box is empty, `get` returns None and every store byte is 0 |
| DynBoxSpec.ReinterpretSound | src/lib.rs:92-95 | whatever the store and tag are reinterpreted as has that tag's type and is what the store's first bytes represent |
| DynBoxSpec.ReinterpretComplete | src/lib.rs:52-57 | when the store and the tag hold a value, reinterpreting them yields exactly that value |
| DynBoxSpec.GetReturnsOccupant | src/lib.rs:70-90 | `get` returns the owned value, and it returns None exactly when `empty()` is true (both directions) |
| DynBoxSpec.Clear | src/lib.rs:62-67 | `clear` leaves the box empty and valid with its bytes untouched, and appends the occupant, if any, to the drop log exactly once |
| DynBoxSpec.ClearIdempotent | src/lib.rs:62-67 | clearing an empty box changes nothing, and clearing twice equals clearing once |
| DynBoxSpec.Set | src/lib.rs:43-59 | `set` panics exactly when the size exceeds `SIZE`. It drops the previous occupant exactly once in either case. On panic the box is empty with its bytes unchanged. On success it owns the new instance, the tag is the new type's and the first `size` bytes are the value's, with the bytes after them unchanged |
| DynBoxSpec.SetThenGet | src/lib.rs:163-198 | after a `set` that fits, including an exact fit or a zero-sized value, the box is non-empty and `get(...).foo()` equals the stored value's `foo()` |
| DynBoxSpec.SetForgetsValue | src/lib.rs:58 | `set` does not drop the value it is given |
| DynBoxSpec.Run | src/lib.rs:43-67 | any sequence of `set`/`clear` calls, stopped at the first panic, keeps the invariant and the capacity |
| DynBoxSpec.RunThenDropLog | src/lib.rs:25-29 | after any calls and then dropping the box, the log is the first occupant followed by every accepted value in storing order: nothing leaked, nothing dropped twice |
| DynBoxSpec.AcceptedIsPrefix | src/lib.rs:50 | the accepted values are the values passed to `set` before the first one that panics |
| DynBoxSpec.CountInDistinct | src/lib.rs:62-67 | in a log of distinct instances each one occurs once |
| DynBoxSpec.DroppedExactlyOnce | src/lib.rs:239-250 | on a new box, each accepted value is dropped exactly once by the end of the box's life, and nothing else is dropped |
| DynBoxImpl.DynBox.constructor | src/lib.rs:33-38 | `new` allocates a zeroed store and an empty tag, equal to `DynBoxSpec.New` |
| DynBoxImpl.DynBox.Empty | src/lib.rs:70-72 | `empty()` is true exactly when the tag is 0, which is exactly when nothing is owned |
| DynBoxImpl.DynBox.Get | src/lib.rs:74-81 | `get` reinterprets the store and the tag as the owned value, or returns None when empty |
| DynBoxImpl.DynBox.GetMut | src/lib.rs:83-90 | `get_mut` yields the same owned value as `get`, or None when empty |
| DynBoxImpl.DynBox.Clear | src/lib.rs:62-67 | in-place `clear` matches `DynBoxSpec.Clear`: the occupant is dropped once and nothing is owned afterwards |
| DynBoxImpl.DynBox.Set | src/lib.rs:43-59 | in-place `set` matches `DynBoxSpec.Set` (same array, same new bytes, tag, occupant and drop log) and reports the panic |
| DynBoxImpl.DynBox.Drop | src/lib.rs:25-29 | destroying the box clears it in place (same array, new state equal to `DynBoxSpec.Clear`), so the occupant is appended to the drop log exactly once |
| DynBoxImpl.NewDynBoxIsEmpty | src/lib.rs:143-148 | a new 64-byte box is empty and both accessors return None |
| DynBoxImpl.SetDynBoxIsNotEmptyAndClearMakesItEmpty | src/lib.rs:151-160 | storing `A` makes the box non-empty, and `clear` makes it empty |
| DynBoxImpl.ZeroSized | src/lib.rs:163-176 | before `set`, the box is empty and both accessors return None. The zero-sized `A` is then stored and both accessors dispatch `foo` to 1 |
| DynBoxImpl.SetFits | src/lib.rs:179-198 | `B(42)` is stored in a box of 64 or of exactly 16 bytes, and both accessors dispatch `foo` to 42 |
| DynBoxImpl.SetTooLargePanics | src/lib.rs:201-209 | storing the 16-byte `B(42)` in a 4-byte box panics and leaves the box empty |
| DynBoxImpl.DropIsCalledOnClear | src/lib.rs:212-222 | the stored `Droppable` is dropped 0 times after `set` and once after `clear` |
| DynBoxImpl.DropIsCalledOnSet | src/lib.rs:225-236 | the stored `Droppable` is dropped 0 times after `set` and once after it is replaced by `A` |
| DynBoxImpl.DropIsCalledOnDrop | src/lib.rs:239-250 | the stored `Droppable` is dropped 0 times after `set` and once when the box is destroyed |

## Left out

- The unsafe fat-pointer transmutes and the raw-pointer copy (src/lib.rs:52-56, 92-95) are not modelled as addresses. The tag is an abstract non-zero dispatch identifier per type. The copy is the value's little-endian byte representation. The reconstructed `&dyn MyTrait` is the value read back from the store's first bytes.
- The macro and trait objects (src/lib.rs:13-14) are not modelled generically. The trait is fixed to the tests' `MyTrait` with its one method `foo`, and the types it can hold are the tests' three implementors, as a closed datatype. Sizes assume a 64-bit target: `B(u128)` is 16 bytes and `Droppable` (a reference) is 8.
- Alignment (`#[repr(align(16))]`, src/lib.rs:15) is a layout property with no counterpart here.
- Borrows and lifetimes are not modelled. This covers the exclusivity of `get_mut`'s reference and the invalidation of earlier references by `clear`/`set`. The accessors return the current occupant by value.
- DynBoxImpl.DynBox.GetMut: returns the same view as `get`, because `MyTrait` has no `&mut self` method through which the occupant could change.
- The `#[cfg(doc)]` items (src/lib.rs:100-105) and `#![no_std]` are not modelled.
- The tests' `Cell<bool>` is replaced by the ghost drop log. `Droppable` keeps only the address of its cell.
- DynBoxImpl.DynBox.Set: a panic is an out-parameter `panicked` (a `Panicked` result in `DynBoxSpec.Set`), not an abort. Unwinding drops the rejected value, which `set` still owns at that point; that drop is not recorded in the box's drop log. `DynBoxSpec.Run` ends a trace at the first panic.
- DynBoxSpec.Clear: the model keeps the store bytes unchanged by the destructor. None of the modelled types' `Drop` implementations writes to its own bytes; a general `T` could.
- The widths of `usize` (the tag, `SIZE`) are not bounded, because no operation does arithmetic on them.
