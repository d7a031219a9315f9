/**
 * The box generated by `dynbox!` seen as a value: its byte store, its
 * vtable tag (0 = empty), the instance it currently owns and the log of
 * the instances whose destructor it has run.  Each operation of the
 * struct is a function from the old state to the new one; the class in
 * DynBoxImpl is proved against these functions.
 */
module DynBoxSpec {
  import opened Wrappers
  import opened Occupants

  /** One value moved into the box; `id` tells apart equal values that are distinct objects. */
  datatype Instance = Instance(id: nat, value: Value)

  datatype Box = Box(store: seq<u8>, vtable: nat, live: Option<Instance>, drops: seq<Instance>)

  /** The state after `set`: it either stored the value or panicked on the size check. */
  datatype SetResult = Stored(box: Box) | Panicked(box: Box)

  /** The store and the tag together are a live `v`: the fat pointer (store, vtable) is a valid `&dyn MyTrait`. */
  predicate Holds(store: seq<u8>, vtable: nat, v: Value)
  {
    vtable == VTable(TypeOf(v)) && Size(v) <= |store| && store[..Size(v)] == Repr(v)
  }

  /** The invariant `set` establishes and `get`/`get_mut` rely on. */
  predicate Valid(b: Box)
  {
    && (b.vtable == 0 <==> b.live == None)
    && (b.live.Some? ==> Holds(b.store, b.vtable, b.live.value.value))
  }

  /** The instance the box owns, as a list of zero or one element. */
  function Held(b: Box): seq<Instance>
  {
    if b.live.Some? then [b.live.value] else []
  }

  /** `new`: a zeroed store of `size` bytes and the empty tag. */
  function New(size: nat): (b: Box)
    ensures Valid(b) && |b.store| == size && b.drops == []
  {
    Box(seq(size, _ => 0), 0, None, [])
  }

  /** `empty`. */
  function Empty(b: Box): bool
  {
    b.vtable == 0
  }

  /** `get_ptr_mut` followed by the dereference: the value whose bytes start the store, of the type the tag names. */
  function Reinterpret(vtable: nat, store: seq<u8>): Option<Value>
  {
    match TypeAt(vtable)
    case None => None
    case Some(t) => if SizeOf(t) <= |store| then Some(Read(t, store[..SizeOf(t)])) else None
  }

  /** `get` and `get_mut`: None for the empty tag, otherwise the reinterpreted store. */
  function Get(b: Box): Option<Value>
  {
    if b.vtable == 0 then None else Reinterpret(b.vtable, b.store)
  }

  /** `clear`: runs the occupant's destructor once and resets the tag; an empty box is left alone. */
  function Clear(b: Box): (r: Box)
    requires Valid(b)
    ensures Valid(r) && Empty(r)
    ensures r.store == b.store && r.drops == b.drops + Held(b)
  {
    if b.vtable != 0 then b.(vtable := 0, live := None, drops := b.drops + [b.live.value]) else b
  }

  /** `set`: clears, checks the size, then writes the tag and the value's bytes and forgets the value. */
  function Set(b: Box, x: Instance): (r: SetResult)
    requires Valid(b)
    ensures Valid(r.box) && |r.box.store| == |b.store|
    ensures r.Panicked? <==> Size(x.value) > |b.store|
    ensures r.box.drops == b.drops + Held(b)
    ensures r.Panicked? ==> Empty(r.box) && r.box.store == b.store
    ensures r.Stored? ==> r.box.live == Some(x) && r.box.vtable == VTable(TypeOf(x.value))
    ensures r.Stored? ==> r.box.store[..Size(x.value)] == Repr(x.value)
    ensures r.Stored? ==> r.box.store[Size(x.value)..] == b.store[Size(x.value)..]
  {
    var cleared := if !Empty(b) then Clear(b) else b;
    var size := Size(x.value);
    if size > |cleared.store| then
      Panicked(cleared)
    else
      Stored(Box(Repr(x.value) + cleared.store[size..], VTable(TypeOf(x.value)), Some(x), cleared.drops))
  }

  /** The tag and the first bytes of the store are read back as exactly the value they came from. */
  lemma ReinterpretSound(vtable: nat, store: seq<u8>)
    ensures var r := Reinterpret(vtable, store); r.Some? ==> Holds(store, vtable, r.value)
  {
    match TypeAt(vtable)
    case None =>
    case Some(t) =>
      if SizeOf(t) <= |store| {
        ReprRead(t, store[..SizeOf(t)]);
      }
  }

  lemma ReinterpretComplete(vtable: nat, store: seq<u8>, v: Value)
    requires Holds(store, vtable, v)
    ensures Reinterpret(vtable, store) == Some(v)
  {
    ReadRepr(v);
  }

  /** `get` returns exactly the owned value, and None exactly when the box is empty. */
  lemma GetReturnsOccupant(b: Box)
    requires Valid(b)
    ensures Get(b) == (if b.live.Some? then Some(b.live.value.value) else None)
    ensures Get(b) == None <==> Empty(b)
  {
    if b.live.Some? {
      ReinterpretComplete(b.vtable, b.store, b.live.value.value);
    }
  }

  /** A new box is empty and both accessors return None, whatever its capacity. */
  lemma NewIsEmpty(size: nat)
    ensures Empty(New(size)) && Get(New(size)) == None
    ensures forall i :: 0 <= i < size ==> New(size).store[i] == 0
  {
  }

  /** After a successful `set`, the box is occupied and `foo` dispatches to the stored value's own `foo`. */
  lemma SetThenGet(b: Box, x: Instance)
    requires Valid(b) && Size(x.value) <= |b.store|
    ensures Set(b, x).Stored?
    ensures !Empty(Set(b, x).box)
    ensures Get(Set(b, x).box) == Some(x.value)
    ensures Foo(Get(Set(b, x).box).value) == Foo(x.value)
  {
    GetReturnsOccupant(Set(b, x).box);
  }

  /** `set` takes ownership without dropping the value it is given. */
  lemma SetForgetsValue(b: Box, x: Instance)
    requires Valid(b) && x !in b.drops && b.live != Some(x)
    ensures x !in Set(b, x).box.drops
  {
  }

  /** Clearing an empty box changes nothing; clearing twice is clearing once. */
  lemma ClearIdempotent(b: Box)
    requires Valid(b)
    ensures Empty(b) ==> Clear(b) == b
    ensures Clear(Clear(b)) == Clear(b)
  {
  }

  /** A sequence of state-changing calls on one box (`empty`, `get` and `get_mut` change nothing). */
  datatype Op = SetOp(x: Instance) | ClearOp

  /** The box after the calls `ops`; a panicking `set` ends the run. */
  function Run(b: Box, ops: seq<Op>): (r: Box)
    requires Valid(b)
    ensures Valid(r) && |r.store| == |b.store|
    decreases |ops|
  {
    if ops == [] then b
    else
      match ops[0]
      case ClearOp => Run(Clear(b), ops[1..])
      case SetOp(x) =>
        match Set(b, x)
        case Panicked(p) => p
        case Stored(s) => Run(s, ops[1..])
  }

  /** Every instance handed to `set` in `ops`, in order. */
  function Instances(ops: seq<Op>): seq<Instance>
  {
    if ops == [] then []
    else
      match ops[0]
      case ClearOp => Instances(ops[1..])
      case SetOp(x) => [x] + Instances(ops[1..])
  }

  /** The instances a box of capacity `cap` accepts from `ops`: those passed to `set` before the first too-large one. */
  function Accepted(cap: nat, ops: seq<Op>): seq<Instance>
  {
    if ops == [] then []
    else
      match ops[0]
      case ClearOp => Accepted(cap, ops[1..])
      case SetOp(x) => if Size(x.value) > cap then [] else [x] + Accepted(cap, ops[1..])
  }

  /**
   * Running `ops` and then destroying the box (whose `Drop` is `clear`)
   * drops the instance held at the start and then every accepted instance,
   * each exactly once and in the order they were stored.
   */
  lemma {:induction false} RunThenDropLog(b: Box, ops: seq<Op>)
    requires Valid(b)
    ensures Clear(Run(b, ops)).drops == b.drops + Held(b) + Accepted(|b.store|, ops)
    decreases |ops|
  {
    if ops != [] {
      match ops[0]
      case ClearOp =>
        var c := Clear(b);
        RunThenDropLog(c, ops[1..]);
      case SetOp(x) =>
        match Set(b, x)
        case Panicked(p) =>
        case Stored(s) =>
          RunThenDropLog(s, ops[1..]);
          assert Held(s) == [x];
    }
  }

  lemma {:induction false} AcceptedIsPrefix(cap: nat, ops: seq<Op>)
    ensures Accepted(cap, ops) <= Instances(ops)
    decreases |ops|
  {
    if ops != [] {
      AcceptedIsPrefix(cap, ops[1..]);
    }
  }

  predicate Distinct(s: seq<Instance>)
  {
    forall i, j :: 0 <= i < j < |s| ==> s[i] != s[j]
  }

  lemma {:induction false} CountInDistinct(s: seq<Instance>, x: Instance)
    requires Distinct(s)
    ensures multiset(s)[x] == if x in s then 1 else 0
    decreases |s|
  {
    if s != [] {
      assert s == [s[0]] + s[1..];
      assert Distinct(s[1..]) by {
        forall i, j | 0 <= i < j < |s[1..]| ensures s[1..][i] != s[1..][j] {
          assert s[1..][i] == s[i + 1] && s[1..][j] == s[j + 1];
        }
      }
      CountInDistinct(s[1..], x);
      assert s[0] !in s[1..] by {
        forall k | 0 <= k < |s[1..]| ensures s[1..][k] != s[0] {
          assert s[1..][k] == s[k + 1];
        }
      }
    }
  }

  /**
   * No leak and no double drop: over any run on a new box followed by its
   * destruction, every instance the box accepted is dropped exactly once
   * and no other instance is dropped.
   */
  lemma DroppedExactlyOnce(size: nat, ops: seq<Op>, x: Instance)
    requires Distinct(Instances(ops))
    ensures var log := Clear(Run(New(size), ops)).drops;
      multiset(log)[x] == if x in Accepted(size, ops) then 1 else 0
  {
    RunThenDropLog(New(size), ops);
    var acc := Accepted(size, ops);
    AcceptedIsPrefix(size, ops);
    assert Distinct(acc) by {
      forall i, j | 0 <= i < j < |acc| ensures acc[i] != acc[j] {
        assert acc[i] == Instances(ops)[i] && acc[j] == Instances(ops)[j];
      }
    }
    CountInDistinct(acc, x);
  }
}
