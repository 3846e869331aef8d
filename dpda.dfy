/**
 * Definitions shared by both variants of the pushdown automaton simulator:
 * the epsilon markers, the input symbol read at a position, the symbol read
 * from the top of the stack, the push-then-shift stack rewrite and the check
 * of a chain against the input alphabet.
 *
 * All symbols are compared as strings, exactly as the simulator compares
 * them: epsilon is the one-character string "ε", and a real symbol is a
 * one-character string.
 */
module Dpda {

  datatype Option<T> = None | Some(value: T)

  /** The internal epsilon marker. */
  const Eps: string := "ε"

  /** The marker the machine file uses for epsilon. */
  const FileEps: string := "EPS"

  /** Maps the file marker to the internal marker and keeps every other field as given. */
  function Canonical(field: string): (r: string)
    ensures r != FileEps
    ensures r == Eps <==> field == FileEps || field == Eps
    ensures field != FileEps ==> r == field
  {
    if field == FileEps then Eps else field
  }

  /**
   * The input read in iteration i of a run: the i-th character of the chain,
   * or epsilon in the one extra iteration after the last character.
   */
  function InputAt(chain: string, i: nat): (r: string)
    requires i <= |chain|
    ensures |r| == 1
    ensures r == Eps <==> i == |chain| || chain[i] == 'ε'
    ensures i < |chain| ==> r[0] == chain[i]
  {
    if i < |chain| then [chain[i]] else Eps
  }

  /** The stack top a rule is compared with: the first symbol, or epsilon when the stack is empty. */
  function TopSymbol(stack: seq<char>): (r: string)
    ensures |r| == 1
    ensures r == Eps <==> stack == [] || stack[0] == 'ε'
    ensures stack != [] ==> r[0] == stack[0]
  {
    if stack == [] then Eps else [stack[0]]
  }

  /** The characters of s in reverse order. */
  function Reverse(s: seq<char>): (r: seq<char>)
    ensures |r| == |s|
  {
    if s == [] then [] else [s[|s| - 1]] + Reverse(s[..|s| - 1])
  }

  /** Position k of the reversal holds the k-th character from the end. */
  lemma {:induction false} ReverseAt(s: seq<char>, k: nat)
    requires k < |s|
    ensures Reverse(s)[k] == s[|s| - 1 - k]
  {
    if k > 0 {
      ReverseAt(s[..|s| - 1], k - 1);
    }
  }

  /** Removes the first element of a sequence, and leaves an empty one alone. */
  function Shift(s: seq<char>): seq<char>
  {
    if s == [] then [] else s[1..]
  }

  /** Everything below the first symbol of `stack` is still at the bottom of `stack'`. */
  predicate KeepsBelowTop(stack: seq<char>, stack': seq<char>)
  {
    stack == [] || (|stack| - 1 <= |stack'| && stack'[|stack'| - (|stack| - 1)..] == stack[1..])
  }

  /**
   * The stack after a rule with stack-top field `top` and push field `push`
   * fires: a non-epsilon push string is placed in front of the stack in
   * reverse order, and then, if the stack-top field is not epsilon, the
   * first symbol is removed.
   */
  function Rewrite(stack: seq<char>, top: string, push: string): seq<char>
  {
    var pushed := if push != Eps then Reverse(push) + stack else stack;
    if top != Eps then Shift(pushed) else pushed
  }

  /** A rule never touches the stack below the symbol on top, whatever its fields. */
  lemma RewriteKeepsBelowTop(stack: seq<char>, top: string, push: string)
    ensures KeepsBelowTop(stack, Rewrite(stack, top, push))
  {
  }

  /** When both fields are non-epsilon, the shift removes the last symbol of the push string. */
  lemma RewritePushAndPop(stack: seq<char>, top: string, push: string)
    requires top != Eps && push != Eps && push != []
    ensures Rewrite(stack, top, push) == Reverse(push[..|push| - 1]) + stack
  {
    // Dafny proves this unaided too, but only with many times the effort; the two steps keep it cheap.
    var rest := Reverse(push[..|push| - 1]);
    assert Reverse(push) == [push[|push| - 1]] + rest;
    assert Reverse(push) + stack == [push[|push| - 1]] + (rest + stack);
  }

  /**
   * The four cases of the rewrite when `top` is the symbol the rule matched.
   * With both fields non-epsilon the matched symbol stays on the stack and the
   * last symbol of the push string is the one removed.
   */
  lemma RewriteCases(stack: seq<char>, top: string, push: string)
    requires top == TopSymbol(stack)
    ensures Rewrite(stack, top, push) ==
      if top != Eps then
        if push == Eps || push == [] then stack[1..]
        else Reverse(push[..|push| - 1]) + stack
      else
        if push == Eps then stack
        else Reverse(push) + stack
  {
    // The case split keeps the proof cheap: without it the solver needs far more effort on some seeds.
    if top != Eps {
      assert stack != [];
      if push != Eps && push != [] {
        RewritePushAndPop(stack, top, push);
      } else if push != Eps {
        assert Reverse(push) + stack == stack;
      }
    } else if push != Eps {
      assert Rewrite(stack, top, push) == Reverse(push) + stack;
    }
  }

  /** The stack grows by the length of a non-epsilon push and shrinks by one for a non-epsilon top. */
  lemma RewriteLength(stack: seq<char>, top: string, push: string)
    requires top == TopSymbol(stack)
    ensures |Rewrite(stack, top, push)| ==
      |stack| + (if push != Eps then |push| else 0) - (if top != Eps then 1 else 0)
  {
    RewriteCases(stack, top, push);
  }

  /** Two concatenations whose first parts have equal lengths are equal exactly when both parts are. */
  lemma ConcatEqual(a: seq<char>, b: seq<char>, c: seq<char>, d: seq<char>)
    requires |a| == |c|
    ensures a + b == c + d <==> a == c && b == d
  {
    if a + b == c + d {
      assert a == (a + b)[..|a|] && c == (c + d)[..|c|];
      assert b == (a + b)[|a|..] && d == (c + d)[|c|..];
    }
  }

  /**
   * The rewrite agrees with the textbook reading (pop the top, then push the
   * string with its first symbol on top) exactly when the push string ends
   * with the matched top symbol and the rest of it reads the same reversed.
   */
  lemma RewriteAgreesWithTextbook(stack: seq<char>, push: string)
    requires stack != [] && TopSymbol(stack) != Eps
    requires push != Eps && push != []
    ensures Rewrite(stack, TopSymbol(stack), push) == push + stack[1..] <==>
      push[|push| - 1] == stack[0] && Reverse(push[..|push| - 1]) == push[..|push| - 1]
  {
    var body := push[..|push| - 1];
    var last := push[|push| - 1];
    RewritePushAndPop(stack, TopSymbol(stack), push);
    assert push + stack[1..] == body + ([last] + stack[1..]) by {
      assert push == body + [last];
    }
    ConcatEqual(Reverse(body), stack, body, [last] + stack[1..]);
    assert stack == [last] + stack[1..] <==> last == stack[0] by {
      assert stack == [stack[0]] + stack[1..];
    }
  }

  /** The usual "keep" and "push one" rules, of one or two symbols ending with the matched top, agree with the textbook. */
  lemma RewriteAgreesForShortPushes(stack: seq<char>, push: string)
    requires stack != [] && TopSymbol(stack) != Eps
    requires push != Eps && 1 <= |push| <= 2 && push[|push| - 1] == stack[0]
    ensures Rewrite(stack, TopSymbol(stack), push) == push + stack[1..]
  {
    var body := push[..|push| - 1];
    assert |body| <= 1;
    if |body| == 1 {
      assert Reverse(body) == [body[0]] + Reverse([]);
    }
    RewriteAgreesWithTextbook(stack, push);
  }

  /**
   * A rule that matches Z and pushes "AB": the textbook reading leaves A on
   * B with Z gone, while the rewrite leaves A on Z, with B gone.
   */
  lemma RewriteQuirkExample()
    ensures Rewrite("Z", "Z", "AB") == "AZ"
  {
    RewriteCases("Z", "Z", "AB");
    assert "AB"[..1] == "A";
  }

  /** Every character of the chain, as a one-character string, is one of the alphabet's symbols. */
  predicate AlphabetValid(chain: string, alphabet: seq<string>): (r: bool)
    ensures r <==> forall c :: c in chain ==> [c] in alphabet
  {
    forall k :: 0 <= k < |chain| ==> [chain[k]] in alphabet
  }

  /** A single character outside the alphabet makes the whole chain fail the check. */
  lemma AlphabetViolationAt(chain: string, alphabet: seq<string>, k: nat)
    requires k < |chain| && [chain[k]] !in alphabet
    ensures !AlphabetValid(chain, alphabet)
  {
  }

  /** How a loop of at most `total` iterations ended: an iteration found no step, or all of them ran. */
  datatype Halt<C> = Stuck(last: C) | Finished(last: C)

  /**
   * The iterations i .. total - 1 of a loop from c, where `step` gives the
   * configuration after one iteration or None: the loop stops at the first
   * None, keeping the configuration it had.
   */
  function Iterations<C>(step: (nat, C) -> Option<C>, total: nat, i: nat, c: C): Halt<C>
    requires i <= total
    decreases total - i
  {
    if i == total then Finished(c)
    else match step(i, c)
      case None => Stuck(c)
      case Some(d) => Iterations(step, total, i + 1, d)
  }

  /** Reference semantics: the configuration after the first n iterations from init, or None once one found no step. */
  function Reach<C>(step: (nat, C) -> Option<C>, init: C, n: nat): Option<C>
  {
    if n == 0 then Some(init)
    else match Reach(step, init, n - 1)
      case None => None
      case Some(c) => step(n - 1, c)
  }

  /** Once an iteration has found no step, no later iteration takes place. */
  lemma {:induction false} StuckStaysStuck<C>(step: (nat, C) -> Option<C>, init: C, n: nat, n': nat)
    requires n <= n'
    requires Reach(step, init, n).None?
    ensures Reach(step, init, n').None?
    decreases n' - n
  {
    if n < n' {
      StuckStaysStuck(step, init, n, n' - 1);
    }
  }

  /** The loop, started on the reference configuration after i iterations, ends as the reference says. */
  lemma {:induction false} IterationsAgreeWithReach<C>(step: (nat, C) -> Option<C>, init: C, total: nat, i: nat, c: C)
    requires i <= total
    requires Reach(step, init, i) == Some(c)
    ensures Iterations(step, total, i, c).Stuck? <==> Reach(step, init, total).None?
    ensures Reach(step, init, total).Some? ==> Iterations(step, total, i, c) == Finished(Reach(step, init, total).value)
    decreases total - i
  {
    if i < total {
      match step(i, c)
      case None =>
        StuckStaysStuck(step, init, i + 1, total);
      case Some(d) =>
        IterationsAgreeWithReach(step, init, total, i + 1, d);
    }
  }

  /** If iteration n < total finds no step, the loop stops there, in the configuration reached before it. */
  lemma {:induction false} StopsAtFirstStuck<C>(step: (nat, C) -> Option<C>, init: C, total: nat, n: nat, c: C, i: nat, d: C)
    requires i <= n < total
    requires Reach(step, init, n) == Some(c) && step(n, c).None?
    requires Reach(step, init, i) == Some(d)
    ensures Iterations(step, total, i, d) == Stuck(c)
    decreases n - i
  {
    if i < n {
      match step(i, d)
      case None =>
        StuckStaysStuck(step, init, i + 1, n);
        assert false;
      case Some(e) =>
        StopsAtFirstStuck(step, init, total, n, c, i + 1, e);
    }
  }
}
