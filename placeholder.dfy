/** The per-query value-placeholder counter: tokens a1, a2, a3, … */
module Placeholder {
  import opened Php

  /** The token `next()` returns when the counter reaches `n`. */
  function Token(n: nat): string {
    "a" + NatToString(n)
  }

  lemma FirstTokens()
    ensures Token(1) == "a1" && Token(2) == "a2" && Token(3) == "a3"
  {
    assert NatToString(1) == "1" && NatToString(2) == "2" && NatToString(3) == "3";
  }

  /** Different counter values give different tokens, so successive `Next` calls never repeat. */
  lemma {:induction false} TokenInjective(i: nat, j: nat)
    ensures Token(i) == Token(j) <==> i == j
  {
    if Token(i) == Token(j) {
      assert NatToString(i) == Token(i)[1..] == Token(j)[1..] == NatToString(j);
      NatToStringInjective(i, j);
    }
  }

  class Placeholder {
    var counter: nat

    /** A new counter starts at 0 (the constructor calls `reset()`). */
    constructor ()
      ensures counter == 0
    {
      counter := 0;
    }

    method Next() returns (token: string)
      modifies this
      ensures counter == old(counter) + 1
      ensures token == Token(counter)
    {
      counter := counter + 1;
      token := "a" + NatToString(counter);
    }

    method Reset()
      modifies this
      ensures counter == 0
    {
      counter := 0;
    }
  }

  /** Two `Next` calls after a reset return "a1" then "a2"; another reset starts over. */
  method ResetThenNext(p: Placeholder) returns (first: string, second: string, again: string)
    modifies p
    ensures first == "a1" && second == "a2" && again == "a1"
    ensures p.counter == 1
  {
    p.Reset();
    first := p.Next();
    second := p.Next();
    p.Reset();
    p.Reset();
    again := p.Next();
  }
}
