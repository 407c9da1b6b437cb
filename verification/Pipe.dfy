/** Pipes as they are stored (sched/pipe.lua): a table with two indices, whose used-up cells are reclaimed now and
    then. It is the list of PipeModel whatever is reclaimed, and reclaiming is cheap. */
module Pipe {
  import opened Bytes
  import opened PipeModel

  /** A cell of the table: used up (false), or an item. */
  datatype Slot<T> = Taken | Item(x: T)

  predicate AllItems<T>(slots: seq<Slot<T>>) {
    forall i {:trigger slots[i]} :: 0 <= i < |slots| ==> slots[i].Item?
  }

  function ItemsOf<T>(slots: seq<Slot<T>>): (items: seq<T>)
    requires AllItems(slots)
    ensures |items| == |slots| && forall i {:trigger items[i]} :: 0 <= i < |slots| ==> items[i] == slots[i].x
  {
    if slots == [] then [] else [slots[0].x] + ItemsOf(slots[1..])
  }

  lemma FirstItem<T>(slots: seq<Slot<T>>)
    requires AllItems(slots) && slots != []
    ensures slots[0].Item? && AllItems(slots[1..]) && ItemsOf(slots) == [slots[0].x] + ItemsOf(slots[1..])
    ensures ItemsOf(slots)[1..] == ItemsOf(slots[1..])
  {
  }

  lemma ItemBefore<T>(x: T, slots: seq<Slot<T>>)
    requires AllItems(slots)
    ensures AllItems([Item(x)] + slots) && ItemsOf([Item(x)] + slots) == [x] + ItemsOf(slots)
  {
    hide ItemsOf;
    assert ItemsOf([Item(x)] + slots) == [x] + ItemsOf(slots);
  }

  lemma ItemAfter<T>(slots: seq<Slot<T>>, x: T)
    requires AllItems(slots)
    ensures AllItems(slots + [Item(x)]) && ItemsOf(slots + [Item(x)]) == ItemsOf(slots) + [x]
  {
    hide ItemsOf;
    assert ItemsOf(slots + [Item(x)]) == ItemsOf(slots) + [x];
  }

  lemma AllOf<T>(slots: seq<Slot<T>>)
    ensures slots[0..] == slots
  {
  }

  /** Cells wasted that are few, in number or for what is used. */
  predicate Little(abs: real, prop: real, wasted: int, used: int) {
    FewAlone(abs, wasted) || FewFor(prop, wasted, used)
  }

  predicate FewAlone(abs: real, wasted: int) {
    wasted as real <= abs
  }

  predicate FewFor(prop: real, wasted: int, used: int) {
    wasted as real <= prop * used as real
  }

  /** Every element moved has been paid for by prop cells received and no longer wasted. */
  predicate Paid(prop: real, moved: int, wasted: int, received: int) {
    prop * moved as real + wasted as real <= received as real
  }

  lemma LittleStays(abs: real, prop: real, wasted: int, used: int)
    requires prop >= 0.0 && Little(abs, prop, wasted, used)
    ensures Little(abs, prop, wasted, used + 1) && Little(abs, prop, wasted - 1, used + 1)
  {
    assert prop * (used + 1) as real == prop * used as real + prop;
  }

  lemma FewerWasted(abs: real, prop: real, moved: int, wasted: int, used: int, received: int)
    ensures prop >= 0.0 && Little(abs, prop, wasted, used) ==> Little(abs, prop, wasted, used + 1) && Little(abs, prop, wasted - 1, used + 1)
    ensures Paid(prop, moved, wasted, received) ==> Paid(prop, moved, wasted - 1, received)
  {
    if prop >= 0.0 && Little(abs, prop, wasted, used) {
      LittleStays(abs, prop, wasted, used);
    }
  }

  lemma NothingWasted(abs: real, prop: real, used: nat)
    requires prop >= 0.0
    ensures Little(abs, prop, 0, used)
  {
    assert prop * used as real >= 0.0;
  }

  lemma PaidBy(prop: real, moved: int, wasted: int, used: int, received: int)
    requires Paid(prop, moved, wasted, received) && !FewFor(prop, wasted, used)
    ensures Paid(prop, moved + used, 0, received)
  {
    assert prop * (moved + used) as real == prop * moved as real + prop * used as real;
  }

  lemma Recompacted(abs: real, prop: real, moved: int, wasted: int, used: nat, received: int)
    ensures FewAlone(abs, wasted) || FewFor(prop, wasted, used) ==> Little(abs, prop, wasted, used)
    ensures prop >= 0.0 ==> Little(abs, prop, 0, used)
    ensures !FewFor(prop, wasted, used) && Paid(prop, moved, wasted, received) ==> Paid(prop, moved + used, 0, received)
  {
    hide Paid, FewFor;
    if prop >= 0.0 {
      NothingWasted(abs, prop, used);
    }
    if !FewFor(prop, wasted, used) && Paid(prop, moved, wasted, received) {
      PaidBy(prop, moved, wasted, used, received);
    }
  }

  lemma PaidStays(prop: real, moved: int, wasted: int, received: int)
    requires Paid(prop, moved, wasted, received)
    ensures Paid(prop, moved, wasted + 1, received + 1) && Paid(prop, moved, wasted - 1, received)
  {
  }

  /** What recompaction moves after a receive: all the items left, unless little is wasted. */
  function MovedBy<T>(answer: Answer<T>, little: bool, used: nat): nat {
    if answer.Got? && !little then used else 0
  }

  /** By default cells are reclaimed when more than 32 are wasted, and more than two for each one used. */
  lemma DefaultWaste(wasted: nat, used: nat)
    ensures Little(32.0, 2.0, wasted, used) <==> wasted <= 32 || wasted <= 2 * used
  {
  }

  lemma StartWaste()
    ensures Little(32.0, 2.0, 0, 0) && Paid(2.0, 0, 0, 0)
  {
  }

  class PipeTable<T(==)> {
    var content: seq<Slot<T>>
    var sndidx: nat
    var rcvidx: nat
    var maxlength: Option<real>
    var state: Status
    var wasteabs: real
    var wasteprop: real
    var blocked: map<Task, Role<T>>
    var due: map<Task, Role<T>>
    /** Elements moved by recompact, and items received, since the waste parameters were set. */
    ghost var moved: nat
    ghost var received: nat

    ghost predicate Valid()
      reads this
    {
      && 1 <= rcvidx <= sndidx == |content| + 1
      && AllItems(content[rcvidx - 1..])
    }

    ghost function Items(): seq<T>
      requires Valid()
      reads this
    {
      ItemsOf(content[rcvidx - 1..])
    }

    ghost function Now(): PipeModel.Pipe<T>
      requires Valid()
      reads this
    {
      PipeModel.Pipe(Items(), maxlength, state, blocked, due)
    }

    predicate LittleWaste()
      reads this
    {
      Little(wasteabs, wasteprop, rcvidx - 1, sndidx - rcvidx)
    }

    ghost predicate PaidFor()
      reads this
    {
      Paid(wasteprop, moved, rcvidx - 1, received)
    }

    /** pipe() */
    constructor (maxlength: Option<real>)
      ensures Valid() && fresh(this) && Now() == New(maxlength)
      ensures wasteabs == 32.0 && wasteprop == 2.0 && moved == 0 && received == 0 && LittleWaste() && PaidFor()
    {
      hide Little, Paid;
      StartWaste();
      content, sndidx, rcvidx := [], 1, 1;
      this.maxlength, state := maxlength, Empty;
      wasteabs, wasteprop := 32.0, 2.0;
      blocked, due := map[], map[];
      moved, received := 0, 0;
    }

    /** updatestate; was is the state before the content or the limit changed. */
    method UpdateState(ghost was: PipeModel.Pipe<T>)
      requires Valid() && was.status == state && was.blocked == blocked && was.due == due
      modifies this`state, this`blocked, this`due
      ensures Valid() && Now() == Updated(was, Items(), maxlength)
    {
      var length := sndidx - rcvidx;
      var newstate := if length == 0 then Empty else if maxlength == Some(length as real) then Full else Ready;
      if state != newstate {
        state := newstate;
        due, blocked := due + blocked, map[];
      }
    }

    /** The used cells, moved to the beginning of a new table. */
    method Moved() returns (compact: seq<Slot<T>>)
      requires Valid()
      ensures compact == content[rcvidx - 1..]
    {
      if sndidx < 2000 { return content[rcvidx - 1..]; }
      var wasted := rcvidx - 1;
      compact := [];
      for i := 0 to sndidx - rcvidx
        invariant compact == content[wasted..wasted + i]
      {
        compact := compact + [content[i + wasted]];
      }
    }

    method Recompact()
      requires Valid()
      modifies this`content, this`sndidx, this`rcvidx, this`moved
      ensures Valid() && Items() == old(Items())
      ensures wasteprop >= 0.0 ==> LittleWaste()
      ensures old(PaidFor()) ==> PaidFor()
      ensures old(LittleWaste()) ==> content == old(content) && rcvidx == old(rcvidx) && moved == old(moved)
      ensures !old(LittleWaste()) ==> |content| == |Items()| && rcvidx == 1 && moved == old(moved) + |Items()|
    {
      var wasted, used := rcvidx - 1, sndidx - rcvidx;
      Recompacted(wasteabs, wasteprop, moved, wasted, used, received);
      if FewAlone(wasteabs, wasted) { return; }
      if FewFor(wasteprop, wasted, used) { return; }
      var compact := Moved();
      AllOf(compact);
      content, rcvidx, sndidx := compact, 1, used + 1;
      moved := moved + used;
    }

    /** The next item is taken out; its cell is wasted. */
    method TakeFirst() returns (x: T)
      requires Valid() && rcvidx < sndidx
      modifies this`content, this`rcvidx, this`received
      ensures Valid() && old(Items()) == [x] + Items()
      ensures received == old(received) + 1 && (old(PaidFor()) ==> PaidFor())
    {
      hide ItemsOf, AllItems, Paid;
      var at := rcvidx - 1;
      FirstItem(content[at..]);
      if PaidFor() { PaidStays(wasteprop, moved, at, received); }
      x := content[at].x;
      content := content[at := Taken];
      assert content[rcvidx..] == old(content)[at..][1..];
      rcvidx := rcvidx + 1;
      received := received + 1;
    }

    /** One round of the loop of receive. */
    method Receive(t: Task, late: bool) returns (answer: Answer<T>)
      requires Valid()
      modifies this
      ensures Valid() && Outcome(Now(), answer) == Try(old(Now()), t, Receiving, late)
      ensures wasteabs == old(wasteabs) && wasteprop == old(wasteprop)
      ensures old(LittleWaste()) && wasteprop >= 0.0 ==> LittleWaste()
      ensures old(PaidFor()) ==> PaidFor()
      ensures received == old(received) + if answer.Got? then 1 else 0
      ensures moved == old(moved) + MovedBy(answer, Little(wasteabs, wasteprop, old(rcvidx), |Items()|), |Items()|)
    {
      hide ItemsOf, AllItems, Paid, Little, Updated;
      if rcvidx == sndidx {
        if late { return Failed; }
        blocked := blocked[t := Receiving];
        return Blocks;
      }
      ghost var was := Now();
      var x := TakeFirst();
      assert Items() == was.items[1..] && x == was.items[0];
      Recompact();
      UpdateState(was);
      return Got(x);
    }

    /** One round of the loop of send. */
    method Send(t: Task, x: T, late: bool) returns (answer: Answer<T>)
      requires Valid()
      modifies this
      ensures Valid() && Outcome(Now(), answer) == Try(old(Now()), t, Sending(x), late) && !answer.Got?
      ensures wasteabs == old(wasteabs) && wasteprop == old(wasteprop) && received == old(received) && moved == old(moved)
      ensures old(LittleWaste()) && wasteprop >= 0.0 ==> LittleWaste()
      ensures old(PaidFor()) ==> PaidFor()
    {
      hide ItemsOf, AllItems, Paid, Little, Updated;
      if state.Full? {
        if late { return Failed; }
        blocked := blocked[t := Sending(x)];
        return Blocks;
      }
      ghost var was := Now();
      if wasteprop >= 0.0 && LittleWaste() { LittleStays(wasteabs, wasteprop, rcvidx - 1, sndidx - rcvidx); }
      ItemAfter(content[rcvidx - 1..], x);
      content := content + [Item(x)];
      assert content[rcvidx - 1..] == old(content)[rcvidx - 1..] + [Item(x)];
      sndidx := sndidx + 1;
      UpdateState(was);
      return Sent;
    }

    method PutFirst(x: T)
      requires Valid()
      modifies this`content, this`rcvidx, this`sndidx
      ensures Valid() && Items() == [x] + old(Items())
      ensures old(LittleWaste()) && wasteprop >= 0.0 ==> LittleWaste()
      ensures old(PaidFor()) ==> PaidFor()
    {
      hide ItemsOf, AllItems, Paid, Little;
      FewerWasted(wasteabs, wasteprop, moved, rcvidx - 1, sndidx - rcvidx, received);
      ItemBefore(x, content[rcvidx - 1..]);
      ghost var now := content[rcvidx - 1..];
      if rcvidx == 1 {
        content := [Item(x)] + content;
        sndidx := sndidx + 1;
      } else {
        content := content[rcvidx - 2 := Item(x)];
        rcvidx := rcvidx - 1;
      }
      assert content[rcvidx - 1..] == [Item(x)] + now;
    }

    method Pushback(x: T) returns (answer: Answer<T>)
      requires Valid()
      modifies this
      ensures Valid() && Outcome(Now(), answer) == Pushed(old(Now()), x)
      ensures wasteabs == old(wasteabs) && wasteprop == old(wasteprop) && received == old(received) && moved == old(moved)
      ensures old(LittleWaste()) && wasteprop >= 0.0 ==> LittleWaste()
      ensures old(PaidFor()) ==> PaidFor()
    {
      hide ItemsOf, AllItems, Paid, Little, Updated;
      if state.Full? { return Failed; }
      ghost var was := Now();
      PutFirst(x);
      UpdateState(was);
      return Sent;
    }

    /** The next item, without taking it. */
    method Peek() returns (x: Option<T>)
      requires Valid()
      ensures x == if Items() == [] then None else Some(Items()[0])
    {
      x := if rcvidx - 1 < |content| && content[rcvidx - 1].Item? then Some(content[rcvidx - 1].x) else None;
    }

    method Length() returns (n: nat)
      requires Valid()
      ensures n == |Items()|
    {
      n := sndidx - rcvidx;
    }

    method SetMaxLength(max: Option<real>) returns (answer: Answer<T>)
      requires Valid()
      modifies this`maxlength, this`state, this`blocked, this`due
      ensures Valid() && Outcome(Now(), answer) == Resized(old(Now()), max)
    {
      if max == None { return Failed; }
      if (sndidx - rcvidx) as real > max.value { return Failed; }
      if max.value < 1.0 { return Failed; }
      ghost var was := Now();
      maxlength := max;
      UpdateState(was);
      return Sent;
    }

    method SetWaste(abs: real, prop: real)
      requires Valid()
      modifies this`wasteabs, this`wasteprop, this`moved, this`received
      ensures Valid() && Now() == old(Now()) && wasteabs == abs && wasteprop == prop
      ensures PaidFor() && moved == 0
    {
      wasteabs, wasteprop := abs, prop;
      moved, received := 0, rcvidx - 1;
    }

    /** A task that was woken tries again, where it left off. */
    method Retry(t: Task, late: bool) returns (answer: Answer<T>)
      requires Valid() && t in due
      modifies this
      ensures Valid() && Outcome(Now(), answer) == Step(old(Now()), PipeModel.Retry(t, late))
      ensures wasteabs == old(wasteabs) && wasteprop == old(wasteprop)
      ensures old(LittleWaste()) && wasteprop >= 0.0 ==> LittleWaste()
      ensures old(PaidFor()) ==> PaidFor()
      ensures moved == old(moved) + MovedBy(answer, Little(wasteabs, wasteprop, old(rcvidx), |Items()|), |Items()|)
    {
      hide ItemsOf, AllItems, Paid, Little, Updated, Try;
      var role := due[t];
      due := due - {t};
      match role {
        case Receiving => answer := Receive(t, late);
        case Sending(x) => answer := Send(t, x, late);
      }
    }

    /** The time allowed runs out for a blocked task. */
    method TimeOut(t: Task)
      requires Valid() && t in blocked
      modifies this`blocked
      ensures Valid() && Now() == Step(old(Now()), PipeModel.TimeOut(t)).pipe
    {
      blocked := blocked - {t};
    }

    /** All the elements recompaction ever moved, as long as setwaste is not called. */
    lemma MovedInAll()
      requires Valid() && PaidFor() && wasteprop > 0.0
      ensures moved as real <= received as real / wasteprop
    {
      Quotient(moved as real, wasteprop, received as real);
    }
  }

  lemma Quotient(m: real, p: real, r: real)
    requires p > 0.0 && p * m <= r
    ensures m <= r / p
  {
    assert p * m / p <= r / p;
  }
}
