/** Every run of operations on sharing bitmaps reads as one on plain sets. */
module BitmapRuns {
  import opened Minimum
  import opened SharedBitmaps

  function Content(s: Store, h: nat): set<Value>
    requires h in s.handles && s.handles[h] in s.buffers
  {
    s.buffers[s.handles[h]]
  }

  // ---- handles that come and go ----

  function Created(s: Store, id: nat, values: set<Value>): Store {
    s.(buffers := s.buffers[s.next := values], counts := s.counts[s.next := 1],
       handles := s.handles[id := s.next], next := s.next + 1)
  }

  function SharedCopy(s: Store, id: nat, h: nat): Store
    requires h in s.handles && s.handles[h] in s.counts
  {
    Retained(s, s.handles[h]).(handles := s.handles[id := s.handles[h]])
  }

  function Released(s: Store, h: nat): Store
    requires h in s.handles && s.handles[h] in s.counts && s.counts[s.handles[h]] > 0
  {
    Dropped(s.(handles := s.handles - {h}), s.handles[h])
  }

  lemma CreatedIsValid(s: Store, id: nat, values: set<Value>)
    requires Valid(s, Nothing) && id !in s.handles
    ensures Valid(Created(s, id, values), Nothing)
  {
    var t := Created(s, id, values);
    NoHolders(s, Nothing, s.next);
    assert Holders(t, s.next) == {id};
    forall b | b in t.counts ensures CountOk(t, Nothing, b) {
      if b != s.next {
        assert CountOk(s, Nothing, b);
        assert Holders(t, b) == Holders(s, b);
      }
    }
  }

  lemma CreatedMeaning(s: Store, id: nat, values: set<Value>)
    requires Valid(s, Nothing) && id !in s.handles
    ensures Valid(Created(s, id, values), Nothing)
    ensures View(Created(s, id, values)) == Put(View(s), id, values)
  {
    CreatedIsValid(s, id, values);
    NoHolders(s, Nothing, s.next);
    assert View(Created(s, id, values)).bitmaps == Put(View(s), id, values).bitmaps;
  }

  lemma SharedMeaning(s: Store, id: nat, h: nat)
    requires Valid(s, Nothing) && id !in s.handles && h in s.handles
    ensures Valid(SharedCopy(s, id, h), Nothing)
    ensures View(SharedCopy(s, id, h)) == Put(View(s), id, View(s).bitmaps[h])
  {
    var b, t := s.handles[h], SharedCopy(s, id, h);
    assert Holders(t, b) == Holders(s, b) + {id};
    forall c | c in t.counts ensures CountOk(t, Nothing, c) {
      assert CountOk(s, Nothing, c);
      if c != b {
        assert Holders(t, c) == Holders(s, c);
      }
    }
    assert View(t).bitmaps == Put(View(s), id, View(s).bitmaps[h]).bitmaps;
  }

  /** A handle on its way out turns into a reference held by nobody else. */
  lemma HandleToLoan(s: Store, h: nat)
    requires Valid(s, Nothing) && h in s.handles
    ensures Valid(s.(handles := s.handles - {h}), Buffer(s.handles[h]))
  {
    var b, t := s.handles[h], s.(handles := s.handles - {h});
    assert h in Holders(s, b);
    assert Holders(t, b) == Holders(s, b) - {h};
    forall c | c in t.counts ensures CountOk(t, Buffer(b), c) {
      assert CountOk(s, Nothing, c);
      if c != b {
        assert Holders(t, c) == Holders(s, c);
      }
    }
  }

  lemma ReleasedMeaning(s: Store, h: nat)
    requires Valid(s, Nothing) && h in s.handles
    ensures CountOk(s, Nothing, s.handles[h]) && Valid(Released(s, h), Nothing)
    ensures View(Released(s, h)) == View(s).(bitmaps := View(s).bitmaps - {h})
  {
    assert CountOk(s, Nothing, s.handles[h]);
    HandleToLoan(s, h);
    var t := s.(handles := s.handles - {h});
    DroppedMeaning(t, s.handles[h]);
    assert View(t).bitmaps == View(s).bitmaps - {h};
  }

  // ---- writes ----

  /** Makes the buffer unique, then writes to it. */
  function Edited(s: Store, h: nat, values: set<Value>): Store
    requires h in s.handles && s.handles[h] in s.buffers && s.handles[h] in s.counts && s.counts[s.handles[h]] > 0
  {
    Written(MadeUnique(s, h), h, values)
  }

  lemma EditedMeaning(s: Store, lent: Lent, h: nat, values: set<Value>)
    requires Valid(s, lent) && h in s.handles
    ensures CountOk(s, lent, s.handles[h]) && Valid(Edited(s, h, values), lent)
    ensures View(Edited(s, h, values)) == Put(View(s), h, values)
  {
    MadeUniqueMeaning(s, lent, h);
    WrittenMeaning(MadeUnique(s, h), lent, h, values);
  }

  /** The operator on a buffer that is held while the handle's own is made unique, read
      and written. */
  function CombinedWith(s: Store, h: nat, o: Operator, b: nat): Store
    requires Valid(s, Nothing) && h in s.handles && b in s.buffers
  {
    RetainedMeaning(s, b);
    var held := Retained(s, b);
    MadeUniqueMeaning(held, Buffer(b), h);
    var own := MadeUnique(held, h);
    var result := Written(own, h, Apply(o, Content(own, h), own.buffers[b]));
    WrittenMeaning(own, Buffer(b), h, Apply(o, Content(own, h), own.buffers[b]));
    DroppedMeaning(result, b);
    Dropped(result, b)
  }

  /** Sharing one buffer with the operand makes no difference. */
  lemma CombinedMeaning(s: Store, h: nat, o: Operator, b: nat)
    requires Valid(s, Nothing) && h in s.handles && b in s.buffers
    ensures Valid(CombinedWith(s, h, o, b), Nothing)
    ensures View(CombinedWith(s, h, o, b)) == Put(View(s), h, Apply(o, View(s).bitmaps[h], s.buffers[b]))
  {
    RetainedMeaning(s, b);
    var held := Retained(s, b);
    MadeUniqueMeaning(held, Buffer(b), h);
    var own := MadeUnique(held, h);
    assert View(own).bitmaps[h] == View(s).bitmaps[h];
    WrittenMeaning(own, Buffer(b), h, Apply(o, Content(own, h), own.buffers[b]));
    DroppedMeaning(Written(own, h, Apply(o, Content(own, h), own.buffers[b])), b);
  }

  // ---- operands, and what an exclusive borrow keeps from being read ----

  /** What an operand is coerced to: a buffer it lends, values of its own, or an error. */
  datatype Coerced = Shared(buffer: nat) | Owned(values: set<Value>) | Refused(error: Reply)

  /** Reading a bitmap fails while one of its own methods has exclusive access. */
  predicate Readable(s: Store, h: nat) {
    s.borrowed != By(h)
  }

  function FromItems(items: seq<Item>): Coerced {
    match Collect(items)
    case Collected(values) => Owned(values)
    case Fault(e) => Refused(e)
  }

  /** Iterating a bitmap copies its values, which reads it. */
  function Walked(s: Store, h: nat): Coerced
    requires h in s.handles && s.handles[h] in s.buffers
  {
    if Readable(s, h) then Owned(Content(s, h)) else Refused(Borrowed)
  }

  /** A bitmap is first taken as one; if that fails it is iterated like anything else,
      which reads it too. */
  function Coerce(s: Store, operand: Operand): Coerced
    requires operand.Bitmap? ==> operand.handle in s.handles && s.handles[operand.handle] in s.buffers
  {
    match operand
    case Bitmap(h) =>
      if Readable(s, h) then Shared(s.handles[h]) else Walked(s, h)
    case Iterable(items) => FromItems(items)
    case NotIterable => Refused(TypeError)
  }

  function WithBorrow(s: Store, borrowed: Borrow): Store {
    s.(borrowed := borrowed)
  }

  lemma BorrowApart(s: Store, borrowed: Borrow)
    requires Valid(s, Nothing)
    ensures Valid(WithBorrow(s, borrowed), Nothing) && View(WithBorrow(s, borrowed)) == View(s)
  {
    var t := WithBorrow(s, borrowed);
    forall b | b in t.counts ensures CountOk(t, Nothing, b) {
      assert CountOk(s, Nothing, b);
      assert Holders(t, b) == Holders(s, b);
    }
  }

  /** An in-place operator: the receiver is borrowed exclusively from before the operand
      is coerced until the end. */
  function InPlace(s: Store, h: nat, o: Operator, operand: Operand): (Store, Reply)
    requires Valid(s, Nothing) && h in s.handles && (operand.Bitmap? ==> operand.handle in s.handles)
  {
    BorrowApart(s, By(h));
    CountPositive(s, h);
    var own := WithBorrow(s, By(h));
    match Coerce(own, operand)
    case Shared(b) => (WithBorrow(CombinedWith(own, h, o, b), Free), Done)
    case Owned(values) => (WithBorrow(Edited(own, h, Apply(o, Content(own, h), values)), Free), Done)
    case Refused(e) => (WithBorrow(own, Free), e)
  }

  // ---- whole runs ----

  ghost predicate Fits(s: Store, op: Op) {
    Valid(s, Nothing) && s.borrowed == Free && Allowed(View(s), op)
  }

  lemma CountPositive(s: Store, h: nat)
    requires Valid(s, Nothing) && h in s.handles
    ensures s.handles[h] in s.counts && s.counts[s.handles[h]] > 0
  {
    assert CountOk(s, Nothing, s.handles[h]);
  }

  function Made(s: Store, id: nat, source: Operand): (Store, Reply)
    requires Valid(s, Nothing) && (source.Bitmap? ==> source.handle in s.handles)
  {
    match Coerce(s, source)
    case Shared(_) => (SharedCopy(s, id, source.handle), Done)
    case Owned(values) => (Created(s, id, values), Done)
    case Refused(e) => (s, e)
  }

  /** One operation on sharing bitmaps. */
  function After(s: Store, op: Op): (Store, Reply)
    requires Fits(s, op)
  {
    match op
    case Create(id, source) => Made(s, id, source)
    case Copy(id, h) => (SharedCopy(s, id, h), Done)
    case Release(h) => CountPositive(s, h); (Released(s, h), Done)
    case Iterate(id, h) => (s.(iterators := s.iterators[id := Content(s, h)]), Done)
    case Advance(i) =>
      if s.iterators[i] == {} then (s, Stops)
      else
        var m := Least(s.iterators[i]);
        (s.(iterators := s.iterators[i := s.iterators[i] - {m}]), Yields(m))
    case Add(h, x) => CountPositive(s, h); (Edited(s, h, Content(s, h) + {x}), Done)
    case Discard(h, x) => CountPositive(s, h); (Edited(s, h, Content(s, h) - {x}), Done)
    case Remove(h, x) =>
      CountPositive(s, h);
      (Edited(s, h, Content(s, h) - {x}), if x in Content(s, h) then Done else KeyError)
    case Pop(h) =>
      CountPositive(s, h);
      if Content(s, h) == {} then (MadeUnique(s, h), KeyError)
      else
        var m := Least(Content(s, h));
        (Edited(s, h, Content(s, h) - {m}), Yields(m))
    case Clear(h) => CountPositive(s, h); (Edited(s, h, {}), Done)
    case Combine(h, o, operand) => InPlace(s, h, o, operand)
  }

  lemma IteratorsApart(s: Store, iterators: map<nat, set<Value>>)
    requires Valid(s, Nothing)
    ensures Valid(s.(iterators := iterators), Nothing)
    ensures View(s.(iterators := iterators)) == View(s).(iterators := iterators)
  {
    var t := s.(iterators := iterators);
    forall b | b in t.counts ensures CountOk(t, Nothing, b) {
      assert CountOk(s, Nothing, b);
      assert Holders(t, b) == Holders(s, b);
    }
  }

  /** The operand is the receiver itself. */
  predicate OwnOperand(op: Op) {
    op.Combine? && op.operand == Bitmap(op.handle)
  }

  lemma MadeRefines(s: Store, id: nat, source: Operand)
    requires Fits(s, Create(id, source))
    ensures var (t, reply) := Made(s, id, source);
      Valid(t, Nothing) && t.borrowed == Free && (View(t), reply) == Eager(View(s), Create(id, source))
  {
    match Coerce(s, source)
    case Shared(_) => SharedMeaning(s, id, source.handle);
    case Owned(values) => CreatedMeaning(s, id, values);
    case Refused(_) =>
  }

  /** An in-place operator is the set operation, whatever is shared, unless the operand
      is the receiver: then it cannot be read, and nothing happens. */
  lemma InPlaceRefines(s: Store, h: nat, o: Operator, operand: Operand)
    requires Fits(s, Combine(h, o, operand))
    ensures var (t, reply) := InPlace(s, h, o, operand);
      && Valid(t, Nothing) && t.borrowed == Free
      && (View(t), reply) == if operand == Bitmap(h) then (View(s), Borrowed) else Eager(View(s), Combine(h, o, operand))
  {
    BorrowApart(s, By(h));
    CountPositive(s, h);
    var own := WithBorrow(s, By(h));
    match Coerce(own, operand)
    case Shared(b) =>
      CombinedMeaning(own, h, o, b);
      BorrowApart(CombinedWith(own, h, o, b), Free);
    case Owned(values) =>
      EditedMeaning(own, Nothing, h, Apply(o, Content(own, h), values));
      BorrowApart(Edited(own, h, Apply(o, Content(own, h), values)), Free);
    case Refused(_) =>
      BorrowApart(own, Free);
  }

  /** The operation replies and leaves all contents as with eagerly copied sets, except
      that an operator refuses its own receiver. */
  lemma StepRefines(s: Store, op: Op)
    requires Fits(s, op)
    ensures Valid(After(s, op).0, Nothing) && After(s, op).0.borrowed == Free
    ensures (View(After(s, op).0), After(s, op).1) == Observed(View(s), op)
  {
    match op
    case Create(id, source) => MadeRefines(s, id, source);
    case Copy(id, h) => SharedMeaning(s, id, h);
    case Release(h) => ReleasedMeaning(s, h);
    case Iterate(id, h) => IteratorsApart(s, s.iterators[id := Content(s, h)]);
    case Advance(i) => AdvanceRefines(s, i);
    case Add(h, x) => EditedMeaning(s, Nothing, h, Content(s, h) + {x});
    case Discard(h, x) => EditedMeaning(s, Nothing, h, Content(s, h) - {x});
    case Remove(h, x) => RemoveRefines(s, h, x);
    case Pop(h) => PopRefines(s, h);
    case Clear(h) => EditedMeaning(s, Nothing, h, {});
    case Combine(h, o, operand) => InPlaceRefines(s, h, o, operand);
  }

  function Observed(v: Sets, op: Op): (Sets, Reply)
    requires Allowed(v, op)
  {
    if OwnOperand(op) then (v, Borrowed) else Eager(v, op)
  }

  /** The operations that behave as on plain sets are all but those. */
  lemma RefinesIffNotOwnOperand(s: Store, op: Op)
    requires Fits(s, op)
    ensures Valid(After(s, op).0, Nothing)
    ensures (View(After(s, op).0), After(s, op).1) == Eager(View(s), op) <==> !OwnOperand(op)
    ensures op.Combine? && op.operand.Bitmap? ==> (After(s, op).1 == Done <==> op.operand.handle != op.handle)
  {
    StepRefines(s, op);
  }

  lemma OwnOperandFails(s: Store, h: nat, o: Operator)
    requires Fits(s, Combine(h, o, Bitmap(h)))
    ensures After(s, Combine(h, o, Bitmap(h))).1 == Borrowed && Eager(View(s), Combine(h, o, Bitmap(h))).1 == Done
  {
    InPlaceRefines(s, h, o, Bitmap(h));
  }

  lemma ExampleMade()
    ensures Fits(EMPTY, Create(0, Iterable([Int(1)])))
    ensures var s := After(EMPTY, Create(0, Iterable([Int(1)]))).0;
      Valid(s, Nothing) && s.borrowed == Free && View(s) == Sets(map[0 := {1}], map[])
  {
    assert [Int(1)][1..] == [] && Collect([Int(1)]) == Collected({1});
    MadeRefines(EMPTY, 0, Iterable([Int(1)]));
  }

  /** Such an operation, one step into a program. */
  lemma OwnOperandExample()
    ensures var make, join := Create(0, Iterable([Int(1)])), Combine(0, Or, Bitmap(0));
      && Fits(EMPTY, make)
      && var s := After(EMPTY, make).0;
      && Fits(s, join) && After(s, join).1 == Borrowed && Eager(View(s), join).1 == Done
  {
    ExampleMade();
    OwnOperandFails(After(EMPTY, Create(0, Iterable([Int(1)]))).0, 0, Or);
  }

  lemma AdvanceRefines(s: Store, i: nat)
    requires Fits(s, Advance(i))
    ensures Valid(After(s, Advance(i)).0, Nothing)
    ensures (View(After(s, Advance(i)).0), After(s, Advance(i)).1) == Eager(View(s), Advance(i))
  {
    if s.iterators[i] != {} {
      IteratorsApart(s, s.iterators[i := s.iterators[i] - {Least(s.iterators[i])}]);
    }
  }

  lemma RemoveRefines(s: Store, h: nat, x: Value)
    requires Fits(s, Remove(h, x))
    ensures Valid(After(s, Remove(h, x)).0, Nothing)
    ensures (View(After(s, Remove(h, x)).0), After(s, Remove(h, x)).1) == Eager(View(s), Remove(h, x))
  {
    EditedMeaning(s, Nothing, h, Content(s, h) - {x});
    if x !in Content(s, h) {
      assert Content(s, h) - {x} == Content(s, h);
      assert Put(View(s), h, Content(s, h)).bitmaps == View(s).bitmaps;
    }
  }

  lemma PopRefines(s: Store, h: nat)
    requires Fits(s, Pop(h))
    ensures Valid(After(s, Pop(h)).0, Nothing)
    ensures (View(After(s, Pop(h)).0), After(s, Pop(h)).1) == Eager(View(s), Pop(h))
  {
    CountPositive(s, h);
    if Content(s, h) == {} {
      MadeUniqueMeaning(s, Nothing, h);
    } else {
      EditedMeaning(s, Nothing, h, Content(s, h) - {Least(Content(s, h))});
    }
  }

  ghost predicate PlainRun(v: Sets, ops: seq<Op>)
    decreases |ops|
  {
    ops == [] || (Allowed(v, ops[0]) && PlainRun(Observed(v, ops[0]).0, ops[1..]))
  }

  /** A run on plain sets, with the refusals. */
  ghost function PlainAll(v: Sets, ops: seq<Op>): (Sets, seq<Reply>)
    requires PlainRun(v, ops)
    decreases |ops|
  {
    if ops == [] then (v, [])
    else
      var (next, reply) := Observed(v, ops[0]);
      var (end, replies) := PlainAll(next, ops[1..]);
      (end, [reply] + replies)
  }

  ghost predicate IsRun(s: Store, ops: seq<Op>)
    decreases |ops|
  {
    ops == [] || (Fits(s, ops[0]) && IsRun(After(s, ops[0]).0, ops[1..]))
  }

  ghost function Outcome(s: Store, ops: seq<Op>): (Store, seq<Reply>)
    requires IsRun(s, ops)
    decreases |ops|
  {
    if ops == [] then (s, [])
    else
      var (next, reply) := After(s, ops[0]);
      var (end, replies) := Outcome(next, ops[1..]);
      (end, [reply] + replies)
  }

  /** Every run that plain sets allow is possible, with the same replies and contents. */
  lemma {:induction false} EveryRunRefines(s: Store, ops: seq<Op>)
    requires Valid(s, Nothing) && s.borrowed == Free && PlainRun(View(s), ops)
    ensures IsRun(s, ops) && Valid(Outcome(s, ops).0, Nothing)
    ensures (View(Outcome(s, ops).0), Outcome(s, ops).1) == PlainAll(View(s), ops)
    decreases |ops|
  {
    if ops != [] {
      StepRefines(s, ops[0]);
      EveryRunRefines(After(s, ops[0]).0, ops[1..]);
    }
  }

  /** The bitmap an operation may change. */
  function Targets(op: Op): set<nat> {
    match op
    case Create(id, _) => {id}
    case Copy(id, _) => {id}
    case Iterate(_, _) => {}
    case Advance(_) => {}
    case _ => {op.handle}
  }

  /** A run that never targets a bitmap leaves it as it was, whatever it shares. */
  lemma {:induction false} Untouched(s: Store, ops: seq<Op>, h: nat)
    requires IsRun(s, ops) && Valid(s, Nothing) && s.borrowed == Free && h in s.handles
    requires forall i :: 0 <= i < |ops| ==> h !in Targets(ops[i])
    ensures var t := Outcome(s, ops).0;
      Valid(t, Nothing) && h in t.handles && Content(t, h) == Content(s, h)
    decreases |ops|
  {
    if ops != [] {
      StepRefines(s, ops[0]);
      var t := After(s, ops[0]).0;
      assert h !in Targets(ops[0]);
      assert View(t).bitmaps[h] == View(s).bitmaps[h];
      Untouched(t, ops[1..], h);
    }
  }

  /** A run without an advance of an iterator leaves what it still has to yield as it was. */
  lemma {:induction false} IteratorUntouched(s: Store, ops: seq<Op>, i: nat)
    requires IsRun(s, ops) && Valid(s, Nothing) && s.borrowed == Free && i in s.iterators && Advance(i) !in ops
    ensures var t := Outcome(s, ops).0; i in t.iterators && t.iterators[i] == s.iterators[i]
    decreases |ops|
  {
    if ops != [] {
      StepRefines(s, ops[0]);
      var t := After(s, ops[0]).0;
      assert ops[0] != Advance(i);
      assert View(t).iterators[i] == View(s).iterators[i];
      IteratorUntouched(t, ops[1..], i);
    }
  }
}
