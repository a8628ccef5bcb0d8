/** Bitmaps that share reference-counted buffers until one of them is written to. */
module SharedBitmaps {
  import opened Minimum

  type Value = n: nat | n < 0x1_0000_0000

  // ---- plain sets, copied eagerly ----

  datatype Sets = Sets(bitmaps: map<nat, set<Value>>, iterators: map<nat, set<Value>>)

  datatype Operator = Or | And | Sub | Xor

  /** What an iterable yields. */
  datatype Item = Int(n: int) | NotInt

  /** The right-hand side of an operator, or what a bitmap is made from. */
  datatype Operand = Bitmap(handle: nat) | Iterable(items: seq<Item>) | NotIterable

  datatype Op =
    | Create(id: nat, source: Operand)
    | Copy(id: nat, handle: nat)
    | Release(handle: nat)
    | Iterate(id: nat, handle: nat)
    | Advance(walker: nat)
    | Add(handle: nat, value: Value)
    | Discard(handle: nat, value: Value)
    | Remove(handle: nat, value: Value)
    | Pop(handle: nat)
    | Clear(handle: nat)
    | Combine(handle: nat, operator: Operator, operand: Operand)

  datatype Reply = Done | Yields(value: Value) | Stops | KeyError | Borrowed | TypeError | ValueError

  function Apply(o: Operator, x: set<Value>, y: set<Value>): set<Value> {
    match o
    case Or => x + y
    case And => x * y
    case Sub => x - y
    case Xor => (x - y) + (y - x)
  }

  datatype Collected = Collected(values: set<Value>) | Fault(error: Reply)

  /** Takes the items in order and stops at the first that is no 32-bit value. */
  function Collect(items: seq<Item>): Collected {
    if items == [] then Collected({})
    else if items[0].NotInt? then Fault(TypeError)
    else if !(0 <= items[0].n < 0x1_0000_0000) then Fault(ValueError)
    else
      var rest := Collect(items[1..]);
      if rest.Fault? then rest else Collected({items[0].n} + rest.values)
  }

  predicate IsValue(item: Item) {
    item.Int? && 0 <= item.n < 0x1_0000_0000
  }

  ghost predicate FirstFault(items: seq<Item>, i: int, error: Reply) {
    && 0 <= i < |items| && !IsValue(items[i]) && (forall j :: 0 <= j < i ==> IsValue(items[j]))
    && error == if items[i].Int? then ValueError else TypeError
  }

  /** All items are collected if all are values; else the error is that of the first
      that is not. */
  lemma {:induction false} CollectMeaning(items: seq<Item>)
    ensures Collect(items).Collected? <==> forall i :: 0 <= i < |items| ==> IsValue(items[i])
    ensures Collect(items).Collected? ==> forall v: Value :: v in Collect(items).values <==> Int(v) in items
    ensures Collect(items).Fault? ==> exists i :: FirstFault(items, i, Collect(items).error)
  {
    if items != [] && !IsValue(items[0]) {
      assert FirstFault(items, 0, Collect(items).error);
    } else if items != [] {
      var rest := items[1..];
      CollectMeaning(rest);
      if Collect(rest).Fault? {
        var i :| FirstFault(rest, i, Collect(rest).error);
        forall j | 0 <= j < i + 1 ensures IsValue(items[j]) {
          assert j > 0 ==> IsValue(rest[j - 1]);
        }
        assert FirstFault(items, i + 1, Collect(items).error);
      } else {
        assert forall i :: 0 <= i < |rest| ==> rest[i] == items[i + 1];
        assert items == [items[0]] + rest;
      }
    }
  }

  /** New ids are unused and the rest refer to something alive. */
  predicate Allowed(v: Sets, op: Op) {
    match op
    case Create(id, source) => id !in v.bitmaps && (source.Bitmap? ==> source.handle in v.bitmaps)
    case Copy(id, h) => id !in v.bitmaps && h in v.bitmaps
    case Iterate(id, h) => id !in v.iterators && h in v.bitmaps
    case Advance(i) => i in v.iterators
    case Combine(h, _, operand) => h in v.bitmaps && (operand.Bitmap? ==> operand.handle in v.bitmaps)
    case _ => op.handle in v.bitmaps
  }

  function Put(v: Sets, h: nat, values: set<Value>): Sets {
    v.(bitmaps := v.bitmaps[h := values])
  }

  /** The set an operand stands for, or why it stands for none. */
  function ValuesOf(v: Sets, operand: Operand): Collected
    requires operand.Bitmap? ==> operand.handle in v.bitmaps
  {
    match operand
    case Bitmap(h) => Collected(v.bitmaps[h])
    case Iterable(items) => Collect(items)
    case NotIterable => Fault(TypeError)
  }

  /** What each operation means for sets that are never shared. */
  function Eager(v: Sets, op: Op): (Sets, Reply)
    requires Allowed(v, op)
  {
    match op
    case Create(id, source) =>
      (match ValuesOf(v, source)
       case Collected(values) => (Put(v, id, values), Done)
       case Fault(e) => (v, e))
    case Copy(id, h) => (Put(v, id, v.bitmaps[h]), Done)
    case Release(h) => (v.(bitmaps := v.bitmaps - {h}), Done)
    case Iterate(id, h) => (v.(iterators := v.iterators[id := v.bitmaps[h]]), Done)
    case Advance(i) =>
      if v.iterators[i] == {} then (v, Stops)
      else
        var m := Least(v.iterators[i]);
        (v.(iterators := v.iterators[i := v.iterators[i] - {m}]), Yields(m))
    case Add(h, x) => (Put(v, h, v.bitmaps[h] + {x}), Done)
    case Discard(h, x) => (Put(v, h, v.bitmaps[h] - {x}), Done)
    case Remove(h, x) => if x in v.bitmaps[h] then (Put(v, h, v.bitmaps[h] - {x}), Done) else (v, KeyError)
    case Pop(h) =>
      if v.bitmaps[h] == {} then (v, KeyError)
      else
        var m := Least(v.bitmaps[h]);
        (Put(v, h, v.bitmaps[h] - {m}), Yields(m))
    case Clear(h) => (Put(v, h, {}), Done)
    case Combine(h, o, operand) =>
      (match ValuesOf(v, operand)
       case Collected(values) => (Put(v, h, Apply(o, v.bitmaps[h], values)), Done)
       case Fault(e) => (v, e))
  }

  // ---- shared buffers ----

  /** The handle whose method is running with exclusive access to it, if any. */
  datatype Borrow = Free | By(handle: nat)

  /** Each handle points to a buffer; each buffer counts the references to it. */
  datatype Store = Store(buffers: map<nat, set<Value>>, counts: map<nat, nat>, handles: map<nat, nat>,
                         iterators: map<nat, set<Value>>, next: nat, borrowed: Borrow)

  const EMPTY := Store(map[], map[], map[], map[], 0, Free)

  function Holders(s: Store, b: nat): set<nat> {
    set h | h in s.handles && s.handles[h] == b
  }

  /** A buffer lent to a running operation has one reference more than handles. */
  datatype Lent = Nothing | Buffer(id: nat)

  ghost predicate CountOk(s: Store, lent: Lent, b: nat)
    requires b in s.counts
  {
    b < s.next && s.counts[b] == |Holders(s, b)| + (if lent == Buffer(b) then 1 else 0) && s.counts[b] > 0
  }

  ghost predicate Valid(s: Store, lent: Lent) {
    && s.buffers.Keys == s.counts.Keys
    && (forall h :: h in s.handles ==> s.handles[h] in s.buffers)
    && (forall b {:trigger CountOk(s, lent, b)} :: b in s.counts ==> CountOk(s, lent, b))
    && (lent.Buffer? ==> lent.id in s.buffers)
  }

  ghost function View(s: Store): Sets
    requires forall h :: h in s.handles ==> s.handles[h] in s.buffers
  {
    Sets(map h | h in s.handles :: s.buffers[s.handles[h]], s.iterators)
  }

  /** Gives the handle a buffer of its own, copying it only when it is shared. */
  function MadeUnique(s: Store, h: nat): Store
    requires h in s.handles && s.handles[h] in s.buffers && s.handles[h] in s.counts && s.counts[s.handles[h]] > 0
  {
    var b := s.handles[h];
    if s.counts[b] == 1 then s
    else
      s.(buffers := s.buffers[s.next := s.buffers[b]],
         counts := s.counts[b := s.counts[b] - 1][s.next := 1],
         handles := s.handles[h := s.next], next := s.next + 1)
  }

  /** No other handle, and no running operation, sees the handle's buffer. */
  ghost predicate Unique(s: Store, lent: Lent, h: nat) {
    h in s.handles && Holders(s, s.handles[h]) == {h} && lent != Buffer(s.handles[h])
  }

  lemma OnlyMember(s: set<nat>, x: nat)
    requires x in s && |s| == 1
    ensures s == {x}
  {
    assert |s - {x}| == 0;
  }

  lemma MoveHolder(s: Store, h: nat, b: nat)
    requires h in s.handles && s.handles[h] != b
    ensures var t := s.(handles := s.handles[h := b]);
      && Holders(t, s.handles[h]) == Holders(s, s.handles[h]) - {h}
      && Holders(t, b) == Holders(s, b) + {h}
      && forall other :: other != b && other != s.handles[h] ==> Holders(t, other) == Holders(s, other)
  {
  }

  lemma NoHolders(s: Store, lent: Lent, b: nat)
    requires Valid(s, lent) && b >= s.next
    ensures b !in s.buffers && Holders(s, b) == {}
  {
    forall c | c in s.counts ensures c < s.next {
      assert CountOk(s, lent, c);
    }
  }

  lemma SharedStaysCounted(s: Store, lent: Lent, h: nat)
    requires Valid(s, lent) && h in s.handles && s.counts[s.handles[h]] > 1
    ensures Valid(MadeUnique(s, h), lent) && Unique(MadeUnique(s, h), lent, h)
  {
    var b, t := s.handles[h], MadeUnique(s, h);
    assert CountOk(s, lent, b);
    NoHolders(s, lent, s.next);
    MoveHolder(s, h, s.next);
    var moved := s.(handles := s.handles[h := s.next]);
    assert forall c :: Holders(t, c) == Holders(moved, c);
    forall c | c in t.counts ensures CountOk(t, lent, c) {
      if c in s.counts {
        assert CountOk(s, lent, c);
      }
      if c == b {
        assert h in Holders(s, b);
      }
    }
  }

  /** Afterwards the handle's buffer is its own, and all contents are as before. */
  lemma MadeUniqueMeaning(s: Store, lent: Lent, h: nat)
    requires Valid(s, lent) && h in s.handles
    ensures CountOk(s, lent, s.handles[h]) && Valid(MadeUnique(s, h), lent) && Unique(MadeUnique(s, h), lent, h)
    ensures View(MadeUnique(s, h)) == View(s)
    ensures forall b :: b in s.buffers ==> b in MadeUnique(s, h).buffers && MadeUnique(s, h).buffers[b] == s.buffers[b]
  {
    var b := s.handles[h];
    assert CountOk(s, lent, b);
    assert h in Holders(s, b);
    if s.counts[b] > 1 {
      SharedStaysCounted(s, lent, h);
      NoHolders(s, lent, s.next);
    } else {
      assert |Holders(s, b)| <= 1;
      assert |Holders(s, b) - {h}| == |Holders(s, b)| - 1;
      OnlyMember(Holders(s, b), h);
    }
  }

  function Written(s: Store, h: nat, values: set<Value>): Store
    requires h in s.handles
  {
    s.(buffers := s.buffers[s.handles[h] := values])
  }

  /** Writing to a buffer of one's own changes no other handle. */
  lemma WrittenMeaning(s: Store, lent: Lent, h: nat, values: set<Value>)
    requires Valid(s, lent) && Unique(s, lent, h)
    ensures Valid(Written(s, h, values), lent)
    ensures View(Written(s, h, values)) == Put(View(s), h, values)
  {
    var t := Written(s, h, values);
    forall b | b in t.counts ensures CountOk(t, lent, b) {
      assert CountOk(s, lent, b);
      assert Holders(t, b) == Holders(s, b);
    }
    forall g | g in s.handles && g != h ensures s.handles[g] != s.handles[h] {
      assert g !in Holders(s, s.handles[h]);
    }
    assert View(t).bitmaps == Put(View(s), h, values).bitmaps;
  }

  // ---- references taken and given back ----

  function Retained(s: Store, b: nat): Store
    requires b in s.counts
  {
    s.(counts := s.counts[b := s.counts[b] + 1])
  }

  /** Gives a reference back; the last one frees the buffer. */
  function Dropped(s: Store, b: nat): Store
    requires b in s.counts && s.counts[b] > 0
  {
    if s.counts[b] == 1 then s.(buffers := s.buffers - {b}, counts := s.counts - {b})
    else s.(counts := s.counts[b := s.counts[b] - 1])
  }

  lemma RetainedMeaning(s: Store, b: nat)
    requires Valid(s, Nothing) && b in s.buffers
    ensures Valid(Retained(s, b), Buffer(b)) && View(Retained(s, b)) == View(s)
  {
    var t := Retained(s, b);
    forall c | c in t.counts ensures CountOk(t, Buffer(b), c) {
      assert CountOk(s, Nothing, c);
      assert Holders(t, c) == Holders(s, c);
    }
  }

  lemma DroppedMeaning(s: Store, b: nat)
    requires Valid(s, Buffer(b))
    ensures CountOk(s, Buffer(b), b) && Valid(Dropped(s, b), Nothing) && View(Dropped(s, b)) == View(s)
  {
    assert CountOk(s, Buffer(b), b);
    var t := Dropped(s, b);
    if s.counts[b] == 1 {
      assert |Holders(s, b)| == 0;
      forall h | h in s.handles ensures s.handles[h] != b {
        assert h !in Holders(s, b);
      }
    }
    forall c | c in t.counts ensures CountOk(t, Nothing, c) {
      assert CountOk(s, Buffer(b), c);
      assert Holders(t, c) == Holders(s, c);
    }
  }
}
