/**
 * The recogniser variant of the simulator (scripts/script.js): a machine
 * built from decoded five-field rule tuples, and a run over a chain whose
 * only result is a verdict.
 */
module Recognizer {
  import opened Dpda

  /** One rule tuple as decoded from the machine file: (state, input, stack top, next state, push). */
  datatype RawRule = RawRule(from: string, input: string, top: string, to: string, push: string)

  /** The decoded machine file; the state list and stack alphabet are only displayed and are not modelled. */
  datatype Data = Data(alphabet: seq<string>, rules: seq<RawRule>, start: string, startStack: char, end: string)

  datatype Rule = Rule(currentState: string, input: string, stackTop: string, nextState: string, stackPush: string)

  /** The part of the machine object that a run reads and never changes. */
  datatype Machine = Machine(alphabet: seq<string>, rules: seq<Rule>, startState: string, startStack: char, endState: string)

  /** The rule record built from one tuple: only the input and push fields are canonicalised. */
  function CanonicalRule(raw: RawRule): (r: Rule)
    ensures r.input != FileEps && r.stackPush != FileEps
    ensures r.input == Eps <==> raw.input == FileEps || raw.input == Eps
    ensures r.stackPush == Eps <==> raw.push == FileEps || raw.push == Eps
    ensures raw.input != FileEps ==> r.input == raw.input
    ensures raw.push != FileEps ==> r.stackPush == raw.push
    ensures r.currentState == raw.from && r.stackTop == raw.top && r.nextState == raw.to
  {
    Rule(raw.from, Canonical(raw.input), raw.top, raw.to, Canonical(raw.push))
  }

  /** The machine description built from the decoded file, rules kept in file order. */
  function InitializeMachine(data: Data): (m: Machine)
    ensures |m.rules| == |data.rules|
    ensures forall k :: 0 <= k < |data.rules| ==> m.rules[k] == CanonicalRule(data.rules[k])
    ensures m.alphabet == data.alphabet && m.startState == data.start
    ensures m.startStack == data.startStack && m.endState == data.end
  {
    Machine(data.alphabet, seq(|data.rules|, k requires 0 <= k < |data.rules| => CanonicalRule(data.rules[k])),
            data.start, data.startStack, data.end)
  }

  predicate Matches(rule: Rule, state: string, input: string, top: string)
  {
    rule.currentState == state && rule.input == input && rule.stackTop == top
  }

  /** The index of the first rule, in file order, that matches the state, the input and the stack top. */
  function FindRule(rules: seq<Rule>, state: string, input: string, top: string): (r: Option<nat>)
    ensures r.Some? ==> r.value < |rules| && Matches(rules[r.value], state, input, top)
    ensures r.Some? ==> forall j :: 0 <= j < r.value ==> !Matches(rules[j], state, input, top)
    ensures r.None? ==> forall j :: 0 <= j < |rules| ==> !Matches(rules[j], state, input, top)
  {
    if rules == [] then None
    else if Matches(rules[0], state, input, top) then Some(0)
    else match FindRule(rules[1..], state, input, top)
      case None => None
      case Some(k) => Some(k + 1)
  }

  /** A rule whose stack-top field is the file marker "EPS" is never chosen: that field is not canonicalised. */
  lemma FileEpsTopNeverMatches(rules: seq<Rule>, state: string, input: string, stack: seq<char>, k: nat)
    requires k < |rules| && rules[k].stackTop == FileEps
    ensures FindRule(rules, state, input, TopSymbol(stack)) != Some(k)
  {
  }

  /** The configuration a run changes: the current state and the stack, top first. */
  datatype Config = Config(state: string, stack: seq<char>)

  function Initial(m: Machine): Config
  {
    Config(m.startState, [m.startStack])
  }

  /** The configuration after a rule fires: its next state, and the stack rewritten by its top and push fields. */
  function Apply(rule: Rule, c: Config): Config
  {
    Config(rule.nextState, Rewrite(c.stack, rule.stackTop, rule.stackPush))
  }

  predicate Accepting(m: Machine, c: Config)
  {
    c.stack == [] && c.state == m.endState
  }

  datatype Verdict = AlphabetViolation | NoTransition | Accepted | NotAccepted

  /** The verdict of a run and the configuration the machine is left in. */
  datatype Outcome = Outcome(verdict: Verdict, final: Config)

  /**
   * One iteration: the configuration after the first matching rule fires on
   * the input of iteration i, or None when no rule matches.
   */
  function Next(m: Machine, chain: string, i: nat, c: Config): Option<Config>
    requires i <= |chain|
  {
    match FindRule(m.rules, c.state, InputAt(chain, i), TopSymbol(c.stack))
    case None => None
    case Some(k) => Some(Apply(m.rules[k], c))
  }

  /**
   * The loop body as a step function: iteration i of a run on chain, for
   * i in 0 .. |chain|, the last one reading epsilon.
   */
  function Step(m: Machine, chain: string): (nat, Config) -> Option<Config>
  {
    (i: nat, c: Config) => if i <= |chain| then Next(m, chain, i, c) else None
  }

  /** The loop of a run: the iterations i .. |chain| from configuration c. */
  function Loop(m: Machine, chain: string, i: nat, c: Config): Halt<Config>
    requires i <= |chain| + 1
  {
    Iterations(Step(m, chain), |chain| + 1, i, c)
  }

  /**
   * One iteration of the loop, unfolded: after the last iteration the loop
   * has finished; otherwise a matching rule fires, or the loop stops where it is.
   */
  lemma LoopStep(m: Machine, chain: string, i: nat, c: Config)
    requires i <= |chain| + 1
    ensures Loop(m, chain, i, c) ==
      if i == |chain| + 1 then Finished(c)
      else match FindRule(m.rules, c.state, InputAt(chain, i), TopSymbol(c.stack))
        case None => Stuck(c)
        case Some(k) => Loop(m, chain, i + 1, Apply(m.rules[k], c))
  {
    if i <= |chain| {
      assert Step(m, chain)(i, c) == Next(m, chain, i, c);
    }
  }

  /**
   * A whole run: reset, alphabet check, then the iterations. An iteration
   * without a matching rule ends the run at once with NoTransition.
   */
  function Run(m: Machine, chain: string): (o: Outcome)
    ensures o.verdict == AlphabetViolation ==> o.final == Initial(m)
    ensures o.verdict == Accepted ==> Accepting(m, o.final)
    ensures o.verdict == NotAccepted ==> !Accepting(m, o.final)
  {
    if !AlphabetValid(chain, m.alphabet) then Outcome(AlphabetViolation, Initial(m))
    else match Loop(m, chain, 0, Initial(m))
      case Stuck(c) => Outcome(NoTransition, c)
      case Finished(c) => Outcome(if Accepting(m, c) then Accepted else NotAccepted, c)
  }

  /**
   * Reference semantics: the configuration after the first n iterations,
   * or None once some iteration found no rule.
   */
  function After(m: Machine, chain: string, n: nat): Option<Config>
  {
    Reach(Step(m, chain), Initial(m), n)
  }

  /**
   * The verdict of a run, in terms of the reference semantics: the alphabet
   * check comes first, and a chain is accepted exactly when all |chain| + 1
   * iterations found a rule and ended with an empty stack in the end state.
   */
  lemma RunVerdict(m: Machine, chain: string)
    ensures Run(m, chain).verdict == AlphabetViolation <==> !AlphabetValid(chain, m.alphabet)
    ensures !AlphabetValid(chain, m.alphabet) ==> Run(m, chain).final == Initial(m)
    ensures Run(m, chain).verdict == NoTransition <==>
      AlphabetValid(chain, m.alphabet) && After(m, chain, |chain| + 1).None?
    ensures Run(m, chain).verdict == Accepted <==>
      AlphabetValid(chain, m.alphabet) && After(m, chain, |chain| + 1).Some? &&
      Accepting(m, After(m, chain, |chain| + 1).value)
    ensures Run(m, chain).verdict == NotAccepted <==>
      AlphabetValid(chain, m.alphabet) && After(m, chain, |chain| + 1).Some? &&
      !Accepting(m, After(m, chain, |chain| + 1).value)
    ensures Run(m, chain).verdict != AlphabetViolation && After(m, chain, |chain| + 1).Some? ==>
      Run(m, chain).final == After(m, chain, |chain| + 1).value
  {
    if AlphabetValid(chain, m.alphabet) {
      IterationsAgreeWithReach(Step(m, chain), Initial(m), |chain| + 1, 0, Initial(m));
    }
  }

  /**
   * If iteration n finds no rule, a run on a chain that passes the alphabet
   * check stops there with NoTransition and leaves the machine in the
   * configuration reached before that iteration.
   */
  lemma NoTransitionStops(m: Machine, chain: string, n: nat, c: Config)
    requires AlphabetValid(chain, m.alphabet)
    requires n <= |chain|
    requires After(m, chain, n) == Some(c)
    requires FindRule(m.rules, c.state, InputAt(chain, n), TopSymbol(c.stack)).None?
    ensures Run(m, chain) == Outcome(NoTransition, c)
  {
    assert Step(m, chain)(n, c).None?;
    StopsAtFirstStuck(Step(m, chain), Initial(m), |chain| + 1, n, c, 0, Initial(m));
  }

  /** The JavaScript machine object: the description it was built from and the configuration a run updates. */
  class Automaton {
    const machine: Machine
    var currentState: string
    var stack: seq<char>

    /** A freshly loaded machine sits in its start state with only the start symbol on the stack. */
    constructor (data: Data)
      ensures machine == InitializeMachine(data)
      ensures currentState == data.start && stack == [data.startStack]
    {
      machine := InitializeMachine(data);
      currentState := data.start;
      stack := [data.startStack];
    }

    /** Applies one rule in place: the next state and the push-then-shift stack rewrite. */
    method Fire(transition: Rule)
      modifies this
      ensures Config(currentState, stack) == Apply(transition, old(Config(currentState, stack)))
    {
      currentState := transition.nextState;
      if transition.stackPush != Eps {
        stack := Reverse(transition.stackPush) + stack;
      }
      if transition.stackTop != Eps {
        stack := Shift(stack);
      }
    }

    /**
     * Runs the chain from a reset configuration. The result and the
     * configuration left behind depend only on the machine and the chain,
     * never on what an earlier run left.
     */
    method CheckChain(chain: string) returns (verdict: Verdict)
      modifies this
      ensures verdict == Run(machine, chain).verdict
      ensures Config(currentState, stack) == Run(machine, chain).final
    {
      currentState := machine.startState;
      stack := [machine.startStack];

      if !AlphabetValid(chain, machine.alphabet) {
        return AlphabetViolation;
      }

      for i := 0 to |chain| + 1
        invariant Loop(machine, chain, i, Config(currentState, stack)) == Loop(machine, chain, 0, Initial(machine))
      {
        var currentInput := InputAt(chain, i);
        var found := FindRule(machine.rules, currentState, currentInput, TopSymbol(stack));
        LoopStep(machine, chain, i, Config(currentState, stack));
        if found.Some? {
          Fire(machine.rules[found.value]);
        } else {
          return NoTransition;
        }
      }

      LoopStep(machine, chain, |chain| + 1, Config(currentState, stack));
      verdict := if stack == [] && currentState == machine.endState then Accepted else NotAccepted;
    }
  }
}

/** A worked run of the recogniser on a machine for a^n b^n written in the usual file form. */
module RecognizerExamples {
  import opened Dpda
  import opened Recognizer

  /** The machine as InitializeMachine builds it from the file tuples shown in BalancedLoads. */
  function Balanced(): Machine
  {
    Machine(["a", "b"],
      [Rule("q0", "a", "Z", "q0", "AZ"),
       Rule("q0", "a", "A", "q0", "AA"),
       Rule("q0", "b", "A", "q0", Eps),
       Rule("q0", Eps, "Z", "q0", Eps)],
      "q0", 'Z', "q0")
  }

  /** The file form: the "EPS" input and push fields load as epsilon. */
  lemma BalancedLoads()
    ensures InitializeMachine(Data(["a", "b"],
      [RawRule("q0", "a", "Z", "q0", "AZ"),
       RawRule("q0", "a", "A", "q0", "AA"),
       RawRule("q0", "b", "A", "q0", "EPS"),
       RawRule("q0", "EPS", "Z", "q0", "EPS")],
      "q0", 'Z', "q0")) == Balanced()
  {
  }

  /** Reading a over Z: the first rule pushes "AZ" reversed and the shift removes the Z pushed last. */
  lemma BalancedReadsA()
    ensures Step(Balanced(), "ab")(0, Config("q0", "Z")) == Some(Config("q0", "AZ"))
  {
    var m := Balanced();
    assert InputAt("ab", 0) == "a" && TopSymbol("Z") == "Z";
    assert FindRule(m.rules, "q0", "a", "Z") == Some(0);
    assert Rewrite("Z", "Z", "AZ") == "AZ" by {
      RewriteCases("Z", "Z", "AZ");
      assert "AZ"[..1] == "A" && Reverse("A") == "A";
    }
  }

  /** Reading b over A: the third rule pops A. */
  lemma BalancedReadsB()
    ensures Step(Balanced(), "ab")(1, Config("q0", "AZ")) == Some(Config("q0", "Z"))
  {
  }

  /** The extra epsilon iteration over Z: the last rule pops Z. */
  lemma BalancedEmptiesStack()
    ensures Step(Balanced(), "ab")(2, Config("q0", "Z")) == Some(Config("q0", []))
  {
    var m := Balanced();
    assert InputAt("ab", 2) == Eps && TopSymbol("Z") == "Z";
    assert FindRule(m.rules[3..], "q0", Eps, "Z") == Some(0);
    assert FindRule(m.rules[2..], "q0", Eps, "Z") == Some(1);
    assert FindRule(m.rules[1..], "q0", Eps, "Z") == Some(2);
    assert FindRule(m.rules, "q0", Eps, "Z") == Some(3);
    RewriteCases("Z", "Z", Eps);
    assert Apply(m.rules[3], Config("q0", "Z")) == Config("q0", []);
  }

  /** All three iterations of the run on "ab" find a rule, and the stack ends empty. */
  lemma BalancedLoop()
    ensures Loop(Balanced(), "ab", 0, Initial(Balanced())) == Finished(Config("q0", []))
  {
    BalancedReadsA();
    BalancedReadsB();
    BalancedEmptiesStack();
    var step := Step(Balanced(), "ab");
    assert Iterations(step, 3, 2, Config("q0", "Z")) == Finished(Config("q0", []));
    assert Iterations(step, 3, 1, Config("q0", "AZ")) == Finished(Config("q0", []));
  }

  /** "ab" is accepted: the push rule leaves A above Z, the pop and the final epsilon step empty the stack. */
  lemma BalancedAccepts()
    ensures Run(Balanced(), "ab") == Outcome(Accepted, Config("q0", []))
  {
    assert AlphabetValid("ab", Balanced().alphabet) by {
      assert ["ab"[0]] == "a" && ["ab"[1]] == "b";
    }
    BalancedLoop();
  }

  /** A character outside the alphabet is rejected before any rule is tried. */
  lemma BalancedRejectsForeignCharacter()
    ensures Run(Balanced(), "abc").verdict == AlphabetViolation
  {
    assert "abc"[2] == 'c';
  }
}
