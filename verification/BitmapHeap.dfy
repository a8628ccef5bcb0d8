/** The bitmaps of a program: their buffers, reference counts and handles, updated in place. */
module BitmapHeap {
  import opened Minimum
  import opened SharedBitmaps
  import opened BitmapRuns
  import opened BitmapMeaning

  class Heap {
    var buffers: map<nat, set<Value>>
    var counts: map<nat, nat>
    var handles: map<nat, nat>
    var iterators: map<nat, set<Value>>
    var next: nat
    var borrowed: Borrow

    ghost function State(): Store
      reads this
    {
      Store(buffers, counts, handles, iterators, next, borrowed)
    }

    constructor ()
      ensures State() == EMPTY && Valid(State(), Nothing)
    {
      buffers, counts, handles, iterators, next, borrowed := map[], map[], map[], map[], 0, Free;
    }

    /** Copies the buffer if anything else refers to it. */
    method MakeMut(h: nat, ghost lent: Lent) returns (b: nat)
      requires Valid(State(), lent) && h in handles
      modifies this
      ensures CountOk(old(State()), lent, old(handles)[h])
      ensures State() == MadeUnique(old(State()), h) && b == handles[h]
      ensures Valid(State(), lent) && Unique(State(), lent, h) && View(State()) == View(old(State()))
    {
      MadeUniqueMeaning(State(), lent, h);
      b := handles[h];
      if counts[b] != 1 {
        buffers := buffers[next := buffers[b]];
        counts := counts[b := counts[b] - 1][next := 1];
        handles := handles[h := next];
        b := next;
        next := next + 1;
      }
    }

    method Add(h: nat, value: Value)
      requires Fits(State(), Op.Add(h, value))
      modifies this
      ensures (State(), Done) == After(old(State()), Op.Add(h, value))
    {
      ghost var content := Content(State(), h);
      var b := MakeMut(h, Nothing);
      assert View(State()).bitmaps[h] == content;
      buffers := buffers[b := buffers[b] + {value}];
    }

    method Discard(h: nat, value: Value)
      requires Fits(State(), Op.Discard(h, value))
      modifies this
      ensures (State(), Done) == After(old(State()), Op.Discard(h, value))
    {
      ghost var content := Content(State(), h);
      var b := MakeMut(h, Nothing);
      assert View(State()).bitmaps[h] == content;
      buffers := buffers[b := buffers[b] - {value}];
    }

    method Remove(h: nat, value: Value) returns (reply: Reply)
      requires Fits(State(), Op.Remove(h, value))
      modifies this
      ensures (State(), reply) == After(old(State()), Op.Remove(h, value))
    {
      ghost var content := Content(State(), h);
      var b := MakeMut(h, Nothing);
      assert View(State()).bitmaps[h] == content;
      reply := if value in buffers[b] then Done else KeyError;
      buffers := buffers[b := buffers[b] - {value}];
    }

    method Pop(h: nat) returns (reply: Reply)
      requires Fits(State(), Op.Pop(h))
      modifies this
      ensures (State(), reply) == After(old(State()), Op.Pop(h))
    {
      ghost var content := Content(State(), h);
      var b := MakeMut(h, Nothing);
      assert View(State()).bitmaps[h] == content;
      if buffers[b] == {} {
        return KeyError;
      }
      var value := Least(buffers[b]);
      buffers := buffers[b := buffers[b] - {value}];
      return Yields(value);
    }

    method Clear(h: nat)
      requires Fits(State(), Op.Clear(h))
      modifies this
      ensures (State(), Done) == After(old(State()), Op.Clear(h))
    {
      var b := MakeMut(h, Nothing);
      buffers := buffers[b := {}];
    }

    /** Holds a reference to the operand's buffer while the own one is made unique and
        the operator applied, and then gives it back. */
    method CombineWith(h: nat, operator: Operator, lent: nat)
      requires Valid(State(), Nothing) && h in handles && lent in buffers
      modifies this
      ensures State() == CombinedWith(old(State()), h, operator, lent)
    {
      RetainedMeaning(State(), lent);
      Retain(lent);
      var b := MakeMut(h, Buffer(lent));
      var values := Apply(operator, buffers[b], buffers[lent]);
      WrittenMeaning(State(), Buffer(lent), h, values);
      buffers := buffers[b := values];
      DroppedMeaning(State(), lent);
      DropReference(lent);
    }

    method Retain(b: nat)
      requires b in counts
      modifies this
      ensures State() == Retained(old(State()), b)
    {
      counts := counts[b := counts[b] + 1];
    }

    /** Takes the items in order up to the first that is no value. */
    method CollectItems(items: seq<Item>) returns (r: Collected)
      ensures r == Collect(items)
    {
      var values: set<Value> := {};
      for i := 0 to |items|
        invariant Collect(items) == (match Collect(items[i..])
                                     case Fault(e) => Fault(e)
                                     case Collected(rest) => Collected(values + rest))
      {
        var item := items[i];
        assert items[i..][0] == item && items[i..][1..] == items[i + 1..];
        if item.NotInt? {
          return Fault(TypeError);
        }
        if !(0 <= item.n < 0x1_0000_0000) {
          return Fault(ValueError);
        }
        values := values + {item.n};
      }
      r := Collected(values);
    }

    /** Collects a bitmap by iterating it. */
    method Walk(h: nat) returns (c: Coerced)
      requires h in handles && handles[h] in buffers
      ensures c == Walked(State(), h)
    {
      if borrowed == By(h) {
        return Refused(Borrowed);
      }
      c := Owned(buffers[handles[h]]);
    }

    /** Coerces an operand, reading a bitmap only if no method has it borrowed. */
    method RequiredOperand(operand: Operand) returns (c: Coerced)
      requires operand.Bitmap? ==> operand.handle in handles && handles[operand.handle] in buffers
      ensures c == Coerce(State(), operand)
    {
      match operand
      case Bitmap(h) =>
        if borrowed != By(h) {
          return Coerced.Shared(handles[h]);
        }
        c := Walk(h);
      case Iterable(items) =>
        var collected := CollectItems(items);
        c := match collected { case Collected(values) => Owned(values) case Fault(e) => Refused(e) };
      case NotIterable =>
        c := Refused(TypeError);
    }

    method Overwrite(h: nat, operator: Operator, values: set<Value>)
      requires Valid(State(), Nothing) && h in handles
      modifies this
      ensures CountOk(old(State()), Nothing, old(handles)[h])
      ensures State() == Edited(old(State()), h, Apply(operator, Content(old(State()), h), values))
    {
      ghost var content := Content(State(), h);
      var b := MakeMut(h, Nothing);
      assert View(State()).bitmaps[h] == content;
      buffers := buffers[b := Apply(operator, buffers[b], values)];
    }

    /** An in-place operator: borrows its receiver, coerces the operand, applies. */
    method Combine(h: nat, operator: Operator, operand: Operand) returns (reply: Reply)
      requires Fits(State(), Op.Combine(h, operator, operand))
      modifies this
      ensures (State(), reply) == After(old(State()), Op.Combine(h, operator, operand))
      ensures Valid(State(), Nothing) && h in handles && (reply == Done <==> Usable(operand) && operand != Bitmap(h))
      ensures reply == Done ==> Merges(operator, View(old(State())), h, operand, Content(State(), h))
    {
      CombineMerges(State(), h, operator, operand);
      BorrowApart(State(), By(h));
      borrowed := By(h);
      var coerced := RequiredOperand(operand);
      reply := Done;
      match coerced {
      case Shared(lent) =>
        CombineWith(h, operator, lent);
      case Owned(values) =>
        Overwrite(h, operator, values);
      case Refused(e) =>
        reply := e;
      }
      borrowed := Free;
    }

    method DropReference(b: nat)
      requires b in counts && counts[b] > 0
      modifies this
      ensures State() == Dropped(old(State()), b)
    {
      if counts[b] == 1 {
        buffers := buffers - {b};
        counts := counts - {b};
      } else {
        counts := counts[b := counts[b] - 1];
      }
    }

    method Create(id: nat, source: Operand) returns (reply: Reply)
      requires Fits(State(), Op.Create(id, source))
      modifies this
      ensures (State(), reply) == After(old(State()), Op.Create(id, source))
    {
      var coerced := RequiredOperand(source);
      reply := Done;
      match coerced {
      case Shared(b) =>
        counts, handles := counts[b := counts[b] + 1], handles[id := b];
      case Owned(values) =>
        buffers, counts := buffers[next := values], counts[next := 1];
        handles, next := handles[id := next], next + 1;
      case Refused(e) =>
        reply := e;
      }
    }

    method Copy(id: nat, h: nat)
      requires Fits(State(), Op.Copy(id, h))
      modifies this
      ensures (State(), Done) == After(old(State()), Op.Copy(id, h))
    {
      var b := handles[h];
      counts, handles := counts[b := counts[b] + 1], handles[id := b];
    }

    method Release(h: nat)
      requires Fits(State(), Op.Release(h))
      modifies this
      ensures (State(), Done) == After(old(State()), Op.Release(h))
    {
      CountPositive(State(), h);
      var b := handles[h];
      handles := handles - {h};
      DropReference(b);
    }

    /** The iterator owns a copy of the whole buffer. */
    method Iterate(id: nat, h: nat)
      requires Fits(State(), Op.Iterate(id, h))
      modifies this
      ensures (State(), Done) == After(old(State()), Op.Iterate(id, h))
    {
      iterators := iterators[id := buffers[handles[h]]];
    }

    method Advance(i: nat) returns (reply: Reply)
      requires Fits(State(), Op.Advance(i))
      modifies this
      ensures (State(), reply) == After(old(State()), Op.Advance(i))
    {
      if iterators[i] == {} {
        return Stops;
      }
      var value := Least(iterators[i]);
      iterators := iterators[i := iterators[i] - {value}];
      return Yields(value);
    }
  }
}
