/** The return-address stack, a wrapper around java.util.Stack. */
module Chip8Stack {
  import opened Wrappers
  import opened Unsigned
  import opened Exceptions

  class Chip8Stack {
    /** Bottom first: the last element is the top. */
    var contents: seq<Short>

    constructor (initial: seq<Short>)
      ensures contents == initial
    {
      contents := initial;
    }

    method Push(address: Short)
      modifies this
      ensures contents == old(contents) + [address]
    {
      contents := contents + [address];
    }

    /** pop: the top element, removed; an EmptyStackException on an empty stack, which then stays as it is. */
    method Pop() returns (r: Result<Short, Exception>)
      modifies this
      ensures old(contents) == [] ==> r == Failure(EmptyStack) && contents == old(contents)
      ensures old(contents) != [] ==> r == Success(old(contents)[|old(contents)| - 1])
      ensures old(contents) != [] ==> contents + [r.value] == old(contents)
    {
      if |contents| == 0 {
        return Failure(EmptyStack);
      }
      r := Success(contents[|contents| - 1]);
      contents := contents[..|contents| - 1];
    }

    function GetSize(): (n: nat)
      reads this
      ensures n == |contents|
    {
      |contents|
    }

    method Clear()
      modifies this
      ensures contents == []
    {
      contents := [];
    }
  }

  /** A pop undoes a push: the pushed address comes back and the stack is as before. */
  method PushThenPop(stack: Chip8Stack, address: Short) returns (r: Result<Short, Exception>)
    modifies stack
    ensures r == Success(address) && stack.contents == old(stack.contents)
  {
    ghost var before := stack.contents;
    stack.Push(address);
    r := stack.Pop();
    assert stack.contents == (stack.contents + [r.value])[..|stack.contents|];
    assert stack.contents == (before + [address])[..|before|];
  }
}
