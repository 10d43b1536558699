/**
 StackBackports: `TryPop` and `TryPeek` for `Stack<T>`. Both report success
 as "the value obtained is not null", so a stack whose top is null is
 popped (or peeked) and still reports false.

 A stack element or out value is an `Option<T>`, with `None` standing for
 `null` (and for `default(T)` in the out value of an empty stack).
 */
module StackBackports {

  datatype Option<T> = None | Some(value: T)

  /** The caller's `Stack<T>`: its items from bottom to top, the top last. */
  class Stack<T> {
    var items: seq<Option<T>>

    constructor (items: seq<Option<T>>)
      ensures this.items == items && Count() == |items|
    {
      this.items := items;
    }

    function Count(): (n: nat)
      reads this
      ensures n == |items|
    {
      |items|
    }
  }

  /**
   `TryPeek(stack, out result)`: reads the stack and changes nothing. An empty
   stack gives false and `default`; otherwise `result` is the top element and
   the answer is whether it is non-null.
   */
  function TryPeek<T>(stack: Stack<T>): (r: (bool, Option<T>))
    reads stack
    ensures |stack.items| == 0 ==> r == (false, None)
    ensures |stack.items| > 0 ==> r.1 == stack.items[|stack.items| - 1]
    ensures r.0 <==> |stack.items| > 0 && stack.items[|stack.items| - 1].Some?
    ensures r.0 <==> r.1.Some?
  {
    if stack.Count() == 0 then (false, None)
    else
      var top := stack.items[|stack.items| - 1];
      (top.Some?, top)
  }

  /**
   `TryPop(stack, out result)`: on an empty stack, false with `default` and the
   stack untouched; otherwise the top element is removed whatever it is, and
   the answer is whether it was non-null. The answer and the value are the
   ones `TryPeek` gives on the stack before the call.
   */
  method TryPop<T>(stack: Stack<T>) returns (ok: bool, result: Option<T>)
    modifies stack
    ensures (ok, result) == old(TryPeek(stack))
    ensures old(|stack.items|) == 0 ==> stack.items == old(stack.items)
    ensures old(|stack.items|) > 0 ==>
              stack.items == old(stack.items[..|stack.items| - 1])
              && result == old(stack.items[|stack.items| - 1])
              && stack.Count() == old(stack.Count()) - 1
  {
    result := None;
    if stack.Count() == 0 {
      return false, result;
    }
    result := stack.items[|stack.items| - 1];
    stack.items := stack.items[..|stack.items| - 1];
    ok := result.Some?;
  }

  /** `TryPeek` followed by `TryPop` on the same stack: both report the same value and the same answer. */
  method TryPeekThenTryPop<T>(stack: Stack<T>) returns (peeked: (bool, Option<T>), popped: (bool, Option<T>))
    modifies stack
    ensures peeked == popped
    ensures popped.0 ==> popped.1.Some? && |stack.items| == old(|stack.items|) - 1
  {
    peeked := TryPeek(stack);
    var ok, result := TryPop(stack);
    popped := (ok, result);
  }
}
