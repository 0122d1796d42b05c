/**
 The value stack and the call frame stack (vm/stack.go, vm/call_frame.go): a
 slice that only grows, and a pointer behind the top.
 */
module Stacks {

  class Stack<T> {
    const goNil: T       // Go's nil, which popping leaves behind
    var data: seq<T>
    var pointer: nat

    ghost predicate Valid()
      reads this
    {
      pointer <= |data|
    }

    ghost function Contents(): seq<T>
      requires Valid()
      reads this
    {
      data[..pointer]
    }

    constructor (goNil: T)
      ensures Valid() && Contents() == [] && data == [] && this.goNil == goNil
    {
      this.goNil := goNil;
      data, pointer := [], 0;
    }

    method Push(v: T)
      requires Valid()
      modifies this
      ensures Valid() && Contents() == old(Contents()) + [v] && |data| >= |old(data)|
    {
      if |data| <= pointer {
        data := data + [v];
      } else {
        data := data[pointer := v];
      }
      pointer := pointer + 1;
    }

    /** On an empty stack the pointer stays where it is, and slot 0 is what is popped. */
    method Pop() returns (v: T)
      requires Valid() && |data| > 0
      modifies this
      ensures Valid() && |data| == |old(data)|
      ensures old(pointer) > 0 ==> old(Contents()) == Contents() + [v]
      ensures old(pointer) == 0 ==> Contents() == [] && v == old(data[0]) && data[0] == goNil
    {
      if pointer > 0 { pointer := pointer - 1; }
      v := data[pointer];
      data := data[pointer := goNil];
    }

    /** Pop without the value. */
    method Discard()
      requires Valid() && |data| > 0
      modifies this
      ensures Valid() && |data| == |old(data)|
      ensures Contents() == if old(pointer) > 0 then old(Contents())[..old(pointer) - 1] else []
    {
      if pointer > 0 { pointer := pointer - 1; }
      data := data[pointer := goNil];
    }

    method Set(index: nat, v: T)
      requires Valid() && index < |data|
      modifies this
      ensures Valid() && data == old(data)[index := v] && pointer == old(pointer)
    {
      data := data[index := v];
    }

    /** The slot `pos` below the top; past the bottom it is slot 0, of no slots nil. */
    function At(pos: nat): (v: T)
      requires Valid()
      reads this
      ensures pos < pointer ==> v == Contents()[|Contents()| - 1 - pos]
    {
      if |data| > pos then (if pointer > pos then data[pointer - 1 - pos] else data[0]) else goNil
    }

    function TopValue(): (v: T)
      requires Valid()
      reads this
      ensures pointer > 0 ==> v == Contents()[|Contents()| - 1]
    {
      if |data| != 0 then (if pointer > 0 then data[pointer - 1] else data[0]) else goNil
    }

    /** The assignments to the pointer behind a call: they may raise it, too. */
    method Reset(p: nat)
      requires Valid() && p <= |data|
      modifies this
      ensures Valid() && data == old(data) && pointer == p
    {
      pointer := p;
    }

    /** What every call ends with: the top value goes to the receiver's slot, on top. */
    method Replace(receiverPtr: nat)
      requires Valid() && receiverPtr < |data|
      modifies this
      ensures Valid() && |data| == |old(data)| && Contents() == old(data)[..receiverPtr] + [old(TopValue())]
    {
      Set(receiverPtr, TopValue());
      Reset(receiverPtr + 1);
    }
  }
}
