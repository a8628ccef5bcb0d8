/** What each operation does to each value, told value by value. */
module BitmapMeaning {
  import opened Minimum
  import opened SharedBitmaps
  import opened BitmapRuns

  // ---- on plain sets ----

  /** No bitmap but `h` and no iterator is different. */
  ghost predicate OnlyBitmap(v: Sets, w: Sets, h: nat) {
    w.iterators == v.iterators && w.bitmaps - {h} == v.bitmaps - {h}
  }

  /** The value is one of the operand's. */
  ghost predicate Holds(v: Sets, operand: Operand, x: Value) {
    match operand
    case Bitmap(g) => g in v.bitmaps && x in v.bitmaps[g]
    case Iterable(items) => Int(x) in items
    case NotIterable => false
  }

  /** The operand stands for a set of 32-bit values. */
  ghost predicate Usable(operand: Operand) {
    match operand
    case Bitmap(_) => true
    case Iterable(items) => forall i :: 0 <= i < |items| ==> items[i].Int? && 0 <= items[i].n < 0x1_0000_0000
    case NotIterable => false
  }

  /** The error of an operand that is not usable: that of its first item that is no value,
      or a type error if it has no items at all. */
  ghost predicate Refuses(operand: Operand, error: Reply) {
    match operand
    case Bitmap(_) => false
    case Iterable(items) => exists i :: FirstFault(items, i, error)
    case NotIterable => error == TypeError
  }

  lemma OperandMeaning(v: Sets, operand: Operand, x: Value)
    requires operand.Bitmap? ==> operand.handle in v.bitmaps
    ensures ValuesOf(v, operand).Collected? <==> Usable(operand)
    ensures Usable(operand) ==> (x in ValuesOf(v, operand).values <==> Holds(v, operand, x))
    ensures !Usable(operand) ==> Refuses(operand, ValuesOf(v, operand).error)
  {
    if operand.Iterable? {
      CollectMeaning(operand.items);
      if Collect(operand.items).Fault? {
        var i :| FirstFault(operand.items, i, Collect(operand.items).error);
      }
    }
  }

  /** In-place operators: union, intersection, difference and symmetric difference. */
  lemma EagerCombine(v: Sets, h: nat, o: Operator, operand: Operand, x: Value)
    requires Allowed(v, Combine(h, o, operand))
    ensures var (w, reply) := Eager(v, Combine(h, o, operand));
      && h in w.bitmaps && OnlyBitmap(v, w, h) && (reply == Done <==> Usable(operand))
      && (reply != Done ==> w == v && Refuses(operand, reply))
      && (reply == Done ==>
        var was, other, now := x in v.bitmaps[h], Holds(v, operand, x), x in w.bitmaps[h];
        && (o == Or ==> (now <==> was || other))
        && (o == And ==> (now <==> was && other))
        && (o == Sub ==> (now <==> was && !other))
        && (o == Xor ==> (now <==> was != other)))
  {
    OperandMeaning(v, operand, x);
  }

  /** Adding, discarding and removing a value, and clearing. */
  lemma EagerEdit(v: Sets, op: Op, x: Value)
    requires Allowed(v, op) && (op.Add? || op.Discard? || op.Remove? || op.Clear?)
    ensures var (w, reply) := Eager(v, op);
      var was := x in v.bitmaps[op.handle];
      && op.handle in w.bitmaps && OnlyBitmap(v, w, op.handle)
      && var now := x in w.bitmaps[op.handle];
      && (op.Add? ==> reply == Done && (now <==> was || x == op.value))
      && (op.Discard? ==> reply == Done && (now <==> was && x != op.value))
      && (op.Remove? ==> (reply == if op.value in v.bitmaps[op.handle] then Done else KeyError) && (now <==> was && x != op.value))
      && (op.Clear? ==> reply == Done && !now)
  {
  }

  /** Popping takes the least value, or fails on an empty bitmap. */
  lemma EagerPop(v: Sets, h: nat, x: Value)
    requires Allowed(v, Pop(h))
    ensures var (w, reply) := Eager(v, Pop(h));
      && h in w.bitmaps && OnlyBitmap(v, w, h)
      && (reply.Yields? ==> reply.value in v.bitmaps[h] && (x in w.bitmaps[h] <==> x in v.bitmaps[h] && x != reply.value))
      && (x in v.bitmaps[h] ==> reply.Yields? && reply.value <= x)
      && (!reply.Yields? ==> reply == KeyError && w == v)
  {
  }

  /** New bitmaps: a copy, or one made from an operand; nothing is made on an error. */
  lemma EagerCreate(v: Sets, op: Op, x: Value)
    requires Allowed(v, op) && (op.Create? || op.Copy?)
    ensures var (w, reply) := Eager(v, op);
      var source := if op.Create? then op.source else Bitmap(op.handle);
      && OnlyBitmap(v, w, op.id) && (reply == Done <==> Usable(source))
      && (reply != Done ==> w == v && Refuses(source, reply))
      && (reply == Done ==> op.id in w.bitmaps && (x in w.bitmaps[op.id] <==> Holds(v, source, x)))
  {
    OperandMeaning(v, if op.Create? then op.source else Bitmap(op.handle), x);
  }

  /** An iterator starts with the bitmap's values and yields the least one left. */
  lemma EagerIterate(v: Sets, op: Op, x: Value)
    requires Allowed(v, op) && (op.Iterate? || op.Advance?)
    ensures var (w, reply) := Eager(v, op);
      var id := if op.Iterate? then op.id else op.walker;
      && w.bitmaps == v.bitmaps && id in w.iterators && w.iterators - {id} == v.iterators - {id}
      && (op.Iterate? ==> reply == Done && (x in w.iterators[id] <==> x in v.bitmaps[op.handle]))
      && (op.Advance? ==>
        && (reply.Yields? ==> reply.value in v.iterators[id] && (x in w.iterators[id] <==> x in v.iterators[id] && x != reply.value))
        && (x in v.iterators[id] ==> reply.Yields? && reply.value <= x)
        && (!reply.Yields? ==> reply == Stops && w == v))
  {
  }

  lemma EagerRelease(v: Sets, h: nat)
    requires Allowed(v, Release(h))
    ensures Eager(v, Release(h)) == (Sets(v.bitmaps - {h}, v.iterators), Done)
  {
  }

  // ---- on shared buffers ----

  /** What an operator leaves in its receiver, whatever shares its buffer. */
  lemma CombineMembership(s: Store, h: nat, o: Operator, operand: Operand, x: Value)
    requires Fits(s, Combine(h, o, operand))
    ensures var (t, reply) := InPlace(s, h, o, operand);
      && Valid(t, Nothing) && h in t.handles
      && (reply == Done <==> Usable(operand) && operand != Bitmap(h))
      && (reply != Done ==> View(t) == View(s) && if operand == Bitmap(h) then reply == Borrowed else Refuses(operand, reply))
      && (reply == Done ==>
        var was, other, now := x in Content(s, h), Holds(View(s), operand, x), x in Content(t, h);
        && (o == Or ==> (now <==> was || other))
        && (o == And ==> (now <==> was && other))
        && (o == Sub ==> (now <==> was && !other))
        && (o == Xor ==> (now <==> was != other)))
  {
    InPlaceRefines(s, h, o, operand);
    EagerCombine(View(s), h, o, operand, x);
    var t := InPlace(s, h, o, operand).0;
    assert h in View(t).bitmaps;
  }

  /** The set `now` is what the operator makes of the bitmap and the operand. */
  ghost predicate Merges(o: Operator, v: Sets, h: nat, operand: Operand, now: set<Value>)
    requires h in v.bitmaps
  {
    forall x: Value :: x in now <==>
      var was, other := x in v.bitmaps[h], Holds(v, operand, x);
      match o
      case Or => was || other
      case And => was && other
      case Sub => was && !other
      case Xor => was != other
  }

  lemma CombineMerges(s: Store, h: nat, o: Operator, operand: Operand)
    requires Fits(s, Combine(h, o, operand))
    ensures var (t, reply) := InPlace(s, h, o, operand);
      && Valid(t, Nothing) && h in t.handles && (reply == Done <==> Usable(operand) && operand != Bitmap(h))
      && (reply == Done ==> Merges(o, View(s), h, operand, Content(t, h)))
  {
    CombineMembership(s, h, o, operand, 0);
    forall x: Value {
      CombineMembership(s, h, o, operand, x);
    }
  }

  /** A copy, or a bitmap made from one, shares its buffer; nothing is copied. */
  lemma CopySharesBuffer(s: Store, op: Op)
    requires Fits(s, op) && (op.Copy? || (op.Create? && op.source.Bitmap?))
    ensures var t, h := After(s, op).0, if op.Copy? then op.handle else op.source.handle;
      && After(s, op).1 == Done && t.buffers == s.buffers && h in t.handles && op.id in t.handles
      && t.handles[op.id] == t.handles[h] == s.handles[h]
  {
  }

  /** Before a write a buffer is copied exactly if something else refers to it. */
  lemma CopiedIffShared(s: Store, lent: Lent, h: nat)
    requires Valid(s, lent) && h in s.handles
    ensures CountOk(s, lent, s.handles[h])
    ensures MadeUnique(s, h).handles[h] == s.handles[h] <==> Unique(s, lent, h)
    ensures Unique(s, lent, h) ==> MadeUnique(s, h) == s
  {
    MadeUniqueMeaning(s, lent, h);
    NoHolders(s, lent, s.next);
    var b := s.handles[h];
    assert CountOk(s, lent, b);
    if Unique(s, lent, h) {
      assert |Holders(s, b)| == |{h}| == 1;
    }
  }
}
