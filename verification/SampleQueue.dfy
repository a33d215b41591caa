/** The queue of one client as daemon/handler.c keeps it: a window that slides through a fixed
    array of slots and is moved back to the front when it reaches the end.  A slot points to two
    sample arrays of its own.  `live` is the set of sample arrays allocated for this queue and
    not freed: freeing is taking an array out of it, and may only be done to a member. */
module SampleQueue {
  import opened Wire
  import Fifo

  /** input_data_t, as the acquisition thread publishes it. */
  class InputData {
    var timestamp: nat
    var points: nat
    var channels: nat
    var analog: array<Sample>
    var digital: array<Digital>

    constructor (timestamp: nat, points: nat, channels: nat, analog: array<Sample>, digital: array<Digital>)
      ensures this.timestamp == timestamp && this.points == points && this.channels == channels
      ensures this.analog == analog && this.digital == digital
    {
      this.timestamp, this.points, this.channels := timestamp, points, channels;
      this.analog, this.digital := analog, digital;
    }

    /** The arrays are at least as long as the samples they hold. */
    predicate InBounds()
      reads this
    {
      channels * points <= analog.Length && channels * points <= digital.Length
    }

    function Value(): Block
      reads this, analog, digital
      requires InBounds()
    {
      Block(timestamp, points, channels, analog[..channels * points], digital[..channels * points])
    }
  }

  /** Field by field and sample by sample, a block is what the shared memory holds. */
  ghost predicate SameBlock(b: Block, input: InputData)
    reads input, input.analog, input.digital
  {
    && b.timestamp == input.timestamp && b.points == input.points && b.channels == input.channels
    && |b.analog| == |b.digital| == input.channels * input.points <= input.analog.Length
    && |b.digital| <= input.digital.Length
    && (forall i :: 0 <= i < |b.analog| ==> b.analog[i] == input.analog[i])
    && (forall i :: 0 <= i < |b.digital| ==> b.digital[i] == input.digital[i])
  }

  /** A slot: a copy of the header, and pointers to copies of the samples. */
  datatype Slot = Slot(timestamp: nat, points: nat, channels: nat, analog: array<Sample>, digital: array<Digital>)

  function ValueOf(s: Slot): Block
    reads s.analog, s.digital
  {
    Block(s.timestamp, s.points, s.channels, s.analog[..], s.digital[..])
  }

  ghost function Arrays(s: Slot): set<object> {
    {s.analog, s.digital}
  }

  ghost function ArraysOf(slots: seq<Slot>): set<object> {
    set i, o | 0 <= i < |slots| && o in Arrays(slots[i]) :: o
  }

  /** `live` is made up of the arrays of these slots, each array from one slot only: taking the
      slots one by one, every one finds its own arrays still there, and none is left over. */
  ghost predicate Owns(live: set<object>, slots: seq<Slot>) {
    if slots == [] then live == {}
    else Arrays(slots[0]) <= live && Owns(live - Arrays(slots[0]), slots[1..])
  }

  ghost function Values(slots: seq<Slot>): seq<Block>
    reads ArraysOf(slots)
  {
    seq(|slots|, i requires 0 <= i < |slots| reads ArraysOf(slots) =>
      assert slots[i].analog in Arrays(slots[i]) && slots[i].digital in Arrays(slots[i]); ValueOf(slots[i]))
  }

  lemma {:induction false} OwnsMore(live: set<object>, slots: seq<Slot>, slot: Slot)
    requires Owns(live, slots) && Arrays(slot) !! live
    ensures Owns(live + Arrays(slot), slots + [slot])
  {
    var more := slots + [slot];
    if slots == [] {
      assert more[0] == slot && more[1..] == [];
      assert live + Arrays(slot) - Arrays(slot) == {};
    } else {
      OwnsMore(live - Arrays(slots[0]), slots[1..], slot);
      assert more[0] == slots[0] && more[1..] == slots[1..] + [slot];
      assert live + Arrays(slot) - Arrays(slots[0]) == live - Arrays(slots[0]) + Arrays(slot);
    }
  }

  /** The last slot can be taken out first. */
  lemma {:induction false} OwnsLast(live: set<object>, slots: seq<Slot>, slot: Slot)
    requires Owns(live, slots + [slot])
    ensures Arrays(slot) <= live && Owns(live - Arrays(slot), slots)
  {
    var more := slots + [slot];
    if slots == [] {
      assert more[0] == slot && more[1..] == [];
      assert Owns(live - Arrays(slot), []);
    } else {
      assert more[0] == slots[0] && more[1..] == slots[1..] + [slot];
      OwnsLast(live - Arrays(slots[0]), slots[1..], slot);
      assert live - Arrays(slots[0]) - Arrays(slot) == live - Arrays(slot) - Arrays(slots[0]);
    }
  }

  /** The first slot can be put last: the order does not matter. */
  lemma OwnsRotated(live: set<object>, slot: Slot, rest: seq<Slot>)
    requires Owns(live, [slot] + rest)
    ensures Owns(live, rest + [slot]) && Arrays(slot) <= live
  {
    assert ([slot] + rest)[0] == slot && ([slot] + rest)[1..] == rest;
    OwnsMore(live - Arrays(slot), rest, slot);
    assert live - Arrays(slot) + Arrays(slot) == live;
  }

  /** A slot added behind the window, while at most one element is being sent. */
  lemma OwnsInsert(live: set<object>, window: seq<Slot>, inFlight: seq<Slot>, slot: Slot)
    requires |inFlight| <= 1 && Owns(live, window + inFlight) && Arrays(slot) !! live
    ensures Owns(live + Arrays(slot), window + [slot] + inFlight)
  {
    if inFlight == [] {
      assert window + inFlight == window && window + [slot] + inFlight == window + [slot];
      OwnsMore(live, window, slot);
    } else {
      var sent := inFlight[0];
      assert inFlight == [sent];
      OwnsLast(live, window, sent);
      OwnsMore(live - Arrays(sent), window, slot);
      OwnsMore(live - Arrays(sent) + Arrays(slot), window + [slot], sent);
      assert live - Arrays(sent) + Arrays(slot) + Arrays(sent) == live + Arrays(slot);
    }
  }

  lemma ValuesHead(slots: seq<Slot>)
    requires slots != []
    ensures Values(slots)[0] == ValueOf(slots[0]) && Values(slots)[1..] == Values(slots[1..])
  {
  }

  lemma ValuesAppend(slots: seq<Slot>, slot: Slot)
    ensures Values(slots + [slot]) == Values(slots) + [ValueOf(slot)]
  {
  }

  /** Slots whose arrays are not written keep their values. */
  twostate lemma SameValues(slots: seq<Slot>)
    requires forall i :: 0 <= i < |slots| ==> unchanged(slots[i].analog) && unchanged(slots[i].digital)
    ensures Values(slots) == old(Values(slots))
  {
    forall i | 0 <= i < |slots| ensures Values(slots)[i] == old(Values(slots))[i] {
      assert ValueOf(slots[i]) == old(ValueOf(slots[i]));
    }
  }

  /** memmove within an array.  The regions overlap; moving front to back is safe because the
      elements move down. */
  method MoveDown(slots: array<Slot>, start: nat, count: nat)
    requires start + count <= slots.Length
    modifies slots
    ensures slots[..count] == old(slots[start..start + count])
  {
    ghost var was := slots[..];
    for i := 0 to count
      invariant slots[..i] == was[start..start + i]
      invariant slots[i..] == was[i..]
    {
      assert slots[start + i] == slots[i..][start];
      slots[i] := slots[start + i];
      assert slots[..i + 1] == slots[..i] + [was[start + i]];
    }
  }

  class SampleBuffer {
    var slots: array<Slot>
    var start: nat
    var count: nat
    ghost var inFlight: seq<Slot>
    ghost var live: set<object>

    /** The slots between start and start + count.  Slots outside may hold pointers that were
        moved or freed long ago; nothing is said about them. */
    ghost function Window(): seq<Slot>
      reads this, slots
      requires start + count <= slots.Length
    {
      slots[start..start + count]
    }

    /** What is allocated is what the window and the element being sent point to, each array from
        one place only. */
    ghost predicate Valid()
      reads this, slots
    {
      && start + count <= slots.Length
      && |inFlight| <= 1
      && Owns(live, Window() + inFlight)
    }

    ghost function WindowArrays(): set<object>
      reads this, slots
    {
      if start + count <= slots.Length then ArraysOf(Window()) else {}
    }

    ghost function Contents(): seq<Block>
      reads this, slots, WindowArrays()
      requires start + count <= slots.Length
    {
      Values(Window())
    }

    constructor (maxElems: nat)
      ensures Valid() && fresh(slots) && slots.Length == maxElems
      ensures Contents() == [] && inFlight == [] && live == {}
    {
      var noAnalog, noDigital := new Sample[0], new Digital[0];
      slots := new Slot[maxElems](_ => Slot(0, 0, 0, noAnalog, noDigital));
      start, count := 0, 0;
      inFlight, live := [], {};
      new;
      assert Window() + inFlight == [];
    }

    /** memmove of the window to the first slot. */
    method MoveToFront()
      requires Valid()
      modifies this`start, slots
      ensures Valid() && slots == old(slots) && start == 0 && Window() == old(Window())
    {
      MoveDown(slots, start, count);
      start := 0;
      assert Window() == old(Window());
    }

    /** One slot filled behind the window, with sample arrays of its own. */
    method Append(input: InputData)
      requires Valid() && start + count < slots.Length && input.InBounds()
      modifies this`count, this`live, slots
      ensures Valid() && slots == old(slots) && live == old(live) + Arrays(slots[start + old(count)])
      ensures fresh(live - old(live)) && old(live) <= live
      ensures Window() == old(Window()) + [slots[start + old(count)]]
      ensures ValueOf(slots[start + old(count)]) == old(input.Value())
    {
      ghost var window := Window();
      var samples := input.channels * input.points;
      var analog := new Sample[samples];
      forall i | 0 <= i < samples {
        analog[i] := input.analog[i];
      }
      var digital := new Digital[samples];
      forall i | 0 <= i < samples {
        digital[i] := input.digital[i];
      }
      var slot := Slot(input.timestamp, input.points, input.channels, analog, digital);
      assert ValueOf(slot) == input.Value();
      slots[start + count] := slot;
      count := count + 1;
      live := live + {analog, digital};
      assert Window() == window + [slot] && Arrays(slot) == {analog, digital};
      OwnsInsert(old(live), window, inFlight, slot);
    }

    method Enqueue(input: InputData)
      requires Valid() && start + count < slots.Length && input.InBounds()
      modifies this`count, this`live, slots
      ensures Valid() && slots == old(slots) && fresh(live - old(live)) && old(live) <= live
      ensures Contents() == Fifo.Push(old(Contents()), old(input.Value()))
      ensures SameBlock(Contents()[|Contents()| - 1], input)
    {
      ghost var window := Window();
      Append(input);
      SameValues(window);
      ValuesAppend(window, slots[start + count - 1]);
    }

    /** copy_to_buffer.  An element is accepted exactly when the queue as a sequence has room,
        wherever the window stands; the loop moves the window at most once. */
    method CopyToBuffer(input: InputData) returns (ok: bool, ghost moves: nat)
      requires Valid() && input.InBounds() && input.analog !in live && input.digital !in live
      modifies this`start, this`count, this`live, slots
      ensures Valid() && slots == old(slots) && inFlight == old(inFlight)
      ensures ok == Fifo.Accepts(old(Contents()), slots.Length)
      ensures Contents() == if ok then Fifo.Push(old(Contents()), old(input.Value())) else old(Contents())
      ensures ok ==>
                var b := Contents()[|Contents()| - 1];
                && b.timestamp == input.timestamp && b.points == input.points && b.channels == input.channels
                && |b.analog| == |b.digital| == input.channels * input.points
                && (forall i :: 0 <= i < |b.analog| ==> b.analog[i] == input.analog[i])
                && (forall i :: 0 <= i < |b.digital| ==> b.digital[i] == input.digital[i])
      ensures old(live) <= live && fresh(live - old(live)) && (!ok ==> live == old(live))
      ensures moves == if old(start) != 0 && old(start) + old(count) + 1 >= slots.Length then 1 else 0
    {
      moves := 0;
      while true
        invariant Valid() && slots == old(slots) && count == old(count) && live == old(live)
        invariant Window() == old(Window()) && Contents() == old(Contents())
        invariant moves == 0 ==> start == old(start)
        invariant moves > 0 ==> moves == 1 && start == 0
        invariant moves > 0 ==> old(start) != 0 && old(start) + old(count) + 1 >= slots.Length
        decreases start
      {
        if start + count + 1 < slots.Length {
          Enqueue(input);
          ok := true;
          break;
        } else if start != 0 {
          MoveToFront();
          SameValues(Window());
          moves := moves + 1;
          continue;
        } else {
          ok := false;
          break;
        }
      }
    }

    /** The first half of write_buf_element, under the queue lock: the oldest element leaves the
        window and stays allocated. */
    method TakeFirst() returns (slot: Slot)
      requires Valid() && count > 0 && inFlight == []
      modifies this`start, this`count, this`inFlight
      ensures Valid() && inFlight == [slot] && slot == old(Window())[0] && Arrays(slot) <= live
      ensures ValueOf(slot) == Fifo.Head(old(Contents()))
      ensures Contents() == Fifo.Pop(old(Contents()))
    {
      ValuesHead(Window());
      slot := Advance();
      OwnsLast(live, Window(), slot);
    }

    method Advance() returns (slot: Slot)
      requires Valid() && count > 0 && inFlight == []
      modifies this`start, this`count, this`inFlight
      ensures Valid() && inFlight == [slot] && slot == old(Window())[0] && Window() == old(Window())[1..]
    {
      ghost var window := Window();
      slot := slots[start];
      assert window + inFlight == [slot] + window[1..];
      OwnsRotated(live, slot, window[1..]);
      count := count - 1;
      start := start + 1;
      inFlight := [slot];
      assert Window() == window[1..];
    }

    /** free(3): only what is allocated may be freed. */
    ghost method Free(block: object)
      requires block in live
      modifies this`live
      ensures live == old(live) - {block}
    {
      live := live - {block};
    }

    /** The end of write_buf_element: the two sample arrays of the element that was sent. */
    method Release(slot: Slot)
      requires Valid() && inFlight == [slot]
      modifies this`live, this`inFlight
      ensures Valid() && inFlight == [] && live == old(live) - Arrays(slot) && Window() == old(Window())
      ensures Contents() == old(Contents())
    {
      SameValues(Window());
      OwnsLast(live, Window(), slot);
      Free(slot.analog);
      Free(slot.digital);
      inFlight := [];
      assert live == old(live) - Arrays(slot);
      assert Window() + inFlight == Window();
    }

    /** free_buffer: every array of the window, each once; an element being sent keeps its own. */
    method FreeBuffer()
      requires Valid()
      modifies this`live, this`count
      ensures Owns(live, inFlight)
      ensures inFlight == [] ==> live == {}
    {
      ghost var window := Window();
      for i := 0 to count
        invariant count == old(count) && window == Window()
        invariant Owns(live, window[i..] + inFlight)
      {
        var slot := slots[start + i];
        ghost var rest := window[i..] + inFlight;
        assert rest[0] == slot && rest[1..] == window[i + 1..] + inFlight;
        ghost var before := live;
        Free(slot.analog);
        Free(slot.digital);
        assert live == before - Arrays(slot);
      }
      assert window[count..] + inFlight == inFlight;
      count := 0;
    }
  }
}
