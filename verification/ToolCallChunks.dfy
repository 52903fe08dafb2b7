/** The ACP server's accumulator of streamed tool-call chunks: one slot per index,
    and a tool call started as soon as its arguments decode. */
module ToolCallChunks {
  import opened Text
  import opened Wrappers
  import opened Json
  import opened JsonLexer
  import opened ArgsStream

  /** One chunk; an empty id, name or args counts as absent. */
  datatype Chunk = Chunk(id: string, name: string, args: Str, index: int)

  datatype Slot = Slot(id: string, name: string, args: Str)

  datatype Call = Call(name: string, args: Value)

  /** A chunk with an id and a name takes its index over from another id. */
  predicate TakesOver(slot: Option<Slot>, c: Chunk) {
    c.id != "" && c.name != "" && (slot.None? || c.id != slot.value.id)
  }

  /** A slot after one chunk of its index. */
  function SlotAfter(slot: Option<Slot>, c: Chunk): Option<Slot> {
    var now := if TakesOver(slot, c) then Some(Slot(c.id, c.name, [])) else slot;
    if now.Some? then Some(now.value.(args := now.value.args + c.args)) else None
  }

  /** A slot after the chunks of its index alone. */
  function SlotOf(cs: seq<Chunk>): Option<Slot> {
    if cs == [] then None else SlotAfter(SlotOf(cs[..|cs| - 1]), cs[|cs| - 1])
  }

  /** The chunks of one index among all. */
  function Own(cs: seq<Chunk>, index: int): seq<Chunk> {
    if cs == [] then [] else
    Own(cs[..|cs| - 1], index) + if cs[|cs| - 1].index == index then [cs[|cs| - 1]] else []
  }

  function ArgsOf(cs: seq<Chunk>): Str {
    if cs == [] then [] else ArgsOf(cs[..|cs| - 1]) + cs[|cs| - 1].args
  }

  lemma NoArgs()
    ensures ArgsOf([]) == []
  {
  }

  lemma ArgsFrom(cs: seq<Chunk>, k: nat)
    requires k < |cs|
    ensures ArgsOf(cs[k..]) == ArgsOf(cs[..|cs| - 1][k..]) + cs[|cs| - 1].args
  {
    assert cs[k..][..|cs| - 1 - k] == cs[..|cs| - 1][k..];
  }

  /** A slot holds the arguments that have arrived since its current id took the index
      over: chunk `k` did, no later chunk has. */
  lemma {:induction false} SlotHoldsItsCall(cs: seq<Chunk>) returns (k: nat)
    requires SlotOf(cs).Some?
    ensures k < |cs| && TakesOver(SlotOf(cs[..k]), cs[k])
    ensures SlotOf(cs) == Some(Slot(cs[k].id, cs[k].name, ArgsOf(cs[k..])))
    ensures forall j :: k < j < |cs| ==> !TakesOver(SlotOf(cs[..j]), cs[j])
  {
    hide TakesOver, ArgsOf;
    var n := |cs| - 1;
    if TakesOver(SlotOf(cs[..n]), cs[n]) {
      k := n;
      ArgsFrom(cs, n);
      assert cs[..n][n..] == [];
      NoArgs();
    } else {
      k := SlotHoldsItsCall(cs[..n]);
      assert cs[..n][..k] == cs[..k];
      ArgsFrom(cs, k);
      forall j | k < j < |cs| ensures !TakesOver(SlotOf(cs[..j]), cs[j]) {
        if j < n { assert cs[..n][..j] == cs[..j]; }
      }
    }
  }

  /** The slot's call could be started: it has an id and its text decodes. */
  predicate Complete(slot: Slot) {
    slot.id != "" && slot.args != [] && Loads(slot.args).Some?
  }

  /** Some slot held the text `args` under this tool id after some of the chunks. */
  ghost predicate Held(cs: seq<Chunk>, id: string, name: string, args: Str) {
    exists n, index :: 0 <= n <= |cs| && SlotOf(Own(cs[..n], index)) == Some(Slot(id, name, args))
  }

  /** Chunk `j` of its index takes the index over for this tool id. */
  predicate TakenBy(own: seq<Chunk>, j: nat, id: string)
    requires j < |own|
  {
    own[j].id == id && TakesOver(SlotOf(own[..j]), own[j])
  }

  predicate NoTakeOver(own: seq<Chunk>, from: nat, to: nat)
    requires to <= |own|
  {
    forall j :: from <= j < to ==> !TakesOver(SlotOf(own[..j]), own[j])
  }

  /** The chunks stream this tool's call as the pieces of `whole`: the id takes over one
      index, once, with its chunk `k`, and what has arrived on that index since is always a
      beginning of `whole`, until another call takes over. */
  ghost predicate StreamedAs(cs: seq<Chunk>, id: string, index: int, k: nat, whole: Str) {
    && (forall i, j :: 0 <= j < |Own(cs, i)| && TakenBy(Own(cs, i), j, id) ==> i == index && j == k)
    && (forall n :: k < n <= |Own(cs, index)| && NoTakeOver(Own(cs, index), k + 1, n) ==>
          ArgsOf(Own(cs, index)[k..n]) <= whole)
  }

  lemma {:induction false} OwnPrefix(cs: seq<Chunk>, n: nat, index: int)
    requires n <= |cs|
    ensures Own(cs[..n], index) <= Own(cs, index)
  {
    if n == |cs| {
      assert cs[..n] == cs;
    } else {
      assert cs[..|cs| - 1][..n] == cs[..n];
      OwnPrefix(cs[..|cs| - 1], n, index);
    }
  }

  /** Whatever text was ever held under the id is a beginning of the streamed text. */
  lemma HeldIsPrefix(cs: seq<Chunk>, id: string, name: string, args: Str, index: int, k: nat, whole: Str)
    requires StreamedAs(cs, id, index, k, whole) && Held(cs, id, name, args)
    ensures args <= whole
  {
    hide SlotOf, Own, TakesOver, ArgsOf;
    var n, i :| 0 <= n <= |cs| && SlotOf(Own(cs[..n], i)) == Some(Slot(id, name, args));
    var part, own := Own(cs[..n], i), Own(cs, i);
    var j := SlotHoldsItsCall(part);
    OwnPrefix(cs, n, i);
    assert forall m :: 0 <= m <= |part| ==> part[..m] == own[..m];
    assert TakenBy(own, j, id);
    assert NoTakeOver(own, j + 1, |part|);
    assert part[j..] == own[j..|part|];
  }

  class ToolCalls {
    var slots: map<int, Slot>
    /** The indices of `slots` in the order they were first used. */
    var order: seq<int>
    var active: map<string, Call>
    /** Every chunk received, and every tool id started, in order. */
    ghost var received: seq<Chunk>
    ghost var started: seq<string>

    ghost predicate SlotsValid()
      reads this
    {
      && (forall i :: SlotOf(Own(received, i)) == if i in slots then Some(slots[i]) else None)
      && (forall i :: i in order <==> i in slots)
    }

    /** What has been started, and on which text. */
    ghost predicate StartsValid()
      reads this
    {
      && (forall i, j :: 0 <= i < j < |started| ==> started[i] != started[j])
      && (forall id :: id in started <==> id in active)
      && (forall id :: id in active ==>
            exists args :: Held(received, id, active[id].name, args) && Loads(args) == Some(active[id].args))
    }

    /** A call streamed as the pieces of one JSON object or array text was started with the
        value of that whole text, however early it was started. */
    lemma StartedCallIsWhole(id: string, index: int, k: nat, whole: Str)
      requires StartsValid() && id in active && StreamedAs(received, id, index, k, whole)
      requires Loads(whole).Some? && IsOpen(whole[ValueStart(whole)])
      ensures Loads(whole) == Some(active[id].args)
    {
      hide StreamedAs, Held, Loads;
      var args :| Held(received, id, active[id].name, args) && Loads(args) == Some(active[id].args);
      HeldIsPrefix(received, id, active[id].name, args, index, k, whole);
      ContainerPrefixDecodes(whole, args);
    }

    constructor ()
      ensures SlotsValid() && StartsValid() && received == [] && started == []
    {
      slots, order, active, received, started := map[], [], map[], [], [];
    }

    /** One more chunk leaves what was started as it is. */
    twostate lemma StartsStay(c: Chunk)
      requires old(StartsValid()) && received == old(received) + [c]
      requires active == old(active) && started == old(started)
      ensures StartsValid()
    {
      hide Held, Loads;
      HeldGrows(old(received), c);
    }

    method Accumulate(c: Chunk)
      requires SlotsValid() && StartsValid()
      modifies this`slots, this`order, this`received
      ensures SlotsValid() && StartsValid() && received == old(received) + [c]
      ensures var takesOver := c.id != "" && c.name != "" &&
          (c.index !in old(slots) || old(slots)[c.index].id != c.id);
        if takesOver then slots == old(slots)[c.index := Slot(c.id, c.name, c.args)]
        else if c.index in old(slots) then
          var slot := old(slots)[c.index];
          slots == old(slots)[c.index := Slot(slot.id, slot.name, slot.args + c.args)]
        else slots == old(slots)
    {
      hide SlotOf, SlotAfter, Loads, StartsValid, Held;
      ghost var now := received + [c];
      assert now[..|received|] == received;
      OwnPush(received, c);
      var isNew := c.index !in slots || c.id != slots[c.index].id;
      SlotPush(Own(received, c.index), c);
      SlotSteps(if c.index in slots then Some(slots[c.index]) else None, c);
      if c.id != "" && c.name != "" && isNew {
        if c.index !in slots { order := order + [c.index]; }
        slots := slots[c.index := Slot(c.id, c.name, [])];
      }
      if c.args != [] && c.index in slots {
        slots := slots[c.index := slots[c.index].(args := slots[c.index].args + c.args)];
      }
      received := now;
      assert c.index in slots ==> slots[c.index].args + [] == slots[c.index].args && [] + c.args == c.args;
      StartsStay(c);
    }

    /** Some slot of this id holds the text the call was started with. */
    ghost predicate StartedFromSlot(id: string)
      reads this
    {
      && id in active
      && exists i :: && i in slots && slots[i].id == id && slots[i].name == active[id].name
                     && Loads(slots[i].args) == Some(active[id].args)
    }

    /** Starts the call in one slot, if its arguments decode by now and it has not been started. */
    method StartSlot(index: int)
      requires SlotsValid() && StartsValid() && index in slots
      modifies this`active, this`started
      ensures SlotsValid() && StartsValid() && old(started) <= started
      ensures forall id :: id in old(active) ==> id in active && active[id] == old(active[id])
      ensures Complete(slots[index]) ==> slots[index].id in active
      ensures var slot := slots[index];
        if slot.id != "" && slot.id !in old(active) && slot.args != [] && Loads(slot.args).Some?
        then active == old(active)[slot.id := Call(slot.name, Loads(slot.args).value)]
        else active == old(active)
    {
      hide SlotOf, Own, Loads, Held;
      var slot := slots[index];
      if slot.id != "" && slot.id !in active && slot.args != [] {
        var decoded := Loads(slot.args);
        if decoded.Some? {
          HeldNow(received, index, slot);
          active := active[slot.id := Call(slot.name, decoded.value)];
          started := started + [slot.id];
        }
      }
    }

    /** Starts every call whose arguments decode by now and that has not been started. */
    method StartComplete()
      requires SlotsValid() && StartsValid()
      modifies this`active, this`started
      ensures SlotsValid() && StartsValid() && old(started) <= started
      ensures forall id :: id in old(active) ==> id in active && active[id] == old(active[id])
      ensures forall i :: i in slots && Complete(slots[i]) ==> slots[i].id in active
      ensures forall i :: i in slots && slots[i].id != "" && slots[i].args != [] && Loads(slots[i].args).Some? ==>
        slots[i].id in active
      ensures forall id :: id in active && id !in old(active) ==> StartedFromSlot(id)
    {
      hide SlotOf, Own, Held, Loads, StartsValid;
      for n := 0 to |order|
        invariant SlotsValid() && StartsValid() && old(started) <= started
        invariant forall id :: id in old(active) ==> id in active && active[id] == old(active[id])
        invariant forall k :: 0 <= k < n && order[k] in slots && Complete(slots[order[k]]) ==>
          slots[order[k]].id in active
        invariant forall id :: id in active && id !in old(active) ==> StartedFromSlot(id)
      {
        assert order[n] in order;
        StartSlot(order[n]);
      }
    }

    /** The chunks of one message, then the calls they complete. */
    method ProcessToolCallChunks(chunks: seq<Chunk>)
      requires SlotsValid() && StartsValid()
      modifies this
      ensures SlotsValid() && StartsValid()
      ensures received == old(received) + chunks && old(started) <= started
      ensures forall id :: id in old(active) ==> id in active && active[id] == old(active[id])
      ensures chunks != [] ==> forall i :: i in slots && Complete(slots[i]) ==> slots[i].id in active
      ensures chunks != [] ==> forall i ::
        i in slots && slots[i].id != "" && slots[i].args != [] && Loads(slots[i].args).Some? ==> slots[i].id in active
      ensures forall id :: id in active && id !in old(active) ==> StartedFromSlot(id)
      ensures chunks == [] ==> slots == old(slots)
    {
      hide Loads;
      if chunks == [] { return; }
      for k := 0 to |chunks|
        invariant SlotsValid() && StartsValid() && received == old(received) + chunks[..k]
        invariant started == old(started) && active == old(active)
      {
        Accumulate(chunks[k]);
      }
      StartComplete();
    }
  }

  lemma OwnPush(cs: seq<Chunk>, c: Chunk)
    ensures forall i :: Own(cs + [c], i) == if c.index == i then Own(cs, i) + [c] else Own(cs, i)
  {
    assert (cs + [c])[..|cs|] == cs;
    assert forall i :: Own(cs, i) + [] == Own(cs, i);
  }

  lemma SlotPush(cs: seq<Chunk>, c: Chunk)
    ensures SlotOf(cs + [c]) == SlotAfter(SlotOf(cs), c)
  {
    assert (cs + [c])[..|cs|] == cs;
  }

  lemma SlotSteps(slot: Option<Slot>, c: Chunk)
    ensures var now := if TakesOver(slot, c) then Some(Slot(c.id, c.name, [])) else slot;
      SlotAfter(slot, c) ==
        if c.args != [] && now.Some? then Some(now.value.(args := now.value.args + c.args)) else now
  {
    var now := if TakesOver(slot, c) then Some(Slot(c.id, c.name, [])) else slot;
    if now.Some? { assert now.value.args + [] == now.value.args; }
  }

  lemma HeldNow(cs: seq<Chunk>, index: int, slot: Slot)
    requires SlotOf(Own(cs, index)) == Some(slot)
    ensures Held(cs, slot.id, slot.name, slot.args)
  {
    assert cs[..|cs|] == cs;
  }

  lemma HeldGrows(cs: seq<Chunk>, c: Chunk)
    ensures forall id, name, args :: Held(cs, id, name, args) ==> Held(cs + [c], id, name, args)
  {
    hide SlotOf, Own;
    forall id, name, args | Held(cs, id, name, args) ensures Held(cs + [c], id, name, args) {
      var n, index :| 0 <= n <= |cs| && SlotOf(Own(cs[..n], index)) == Some(Slot(id, name, args));
      assert (cs + [c])[..n] == cs[..n];
    }
  }
}
