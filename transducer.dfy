/**
 * The transducer variant of the simulator (scripts/script2.js): rules carry
 * an optional output string, a run accumulates the output of the rules it
 * applies and records one trace entry per applied rule, and the result is a
 * success flag together with that trace.
 */
module Transducer {
  import opened Dpda

  /**
   * One rule tuple as decoded from the machine file: (state, input, stack
   * top, next state, push) and an optional sixth field, the output.
   */
  datatype RawRule = RawRule(from: string, input: string, top: string, to: string, push: string, output: Option<string>)

  /** The decoded machine file; the state list and the stack alphabet are only displayed, and the output alphabet is stored but never read. */
  datatype Data = Data(alphabet: seq<string>, rules: seq<RawRule>, start: string, startStack: char, end: string)

  datatype Rule = Rule(currentState: string, input: string, stackTop: string, nextState: string,
                       stackPush: string, output: string)

  /** The part of the machine object that a run reads and never changes. */
  datatype Machine = Machine(alphabet: seq<string>, rules: seq<Rule>, startState: string, startStack: char, endState: string)

  /** An absent or empty output field becomes epsilon; any other output is kept as given. */
  function CanonicalOutput(output: Option<string>): (r: string)
    ensures r != []
    ensures r == Eps <==> output.None? || output.value == [] || output.value == Eps
    ensures output.Some? && output.value != [] ==> r == output.value
  {
    if output.None? || output.value == [] then Eps else output.value
  }

  /** The rule record built from one tuple: the input and push fields are canonicalised, and the output defaults to epsilon. */
  function CanonicalRule(raw: RawRule): (r: Rule)
    ensures r.input != FileEps && r.stackPush != FileEps && r.output != []
    ensures r.input == Eps <==> raw.input == FileEps || raw.input == Eps
    ensures r.stackPush == Eps <==> raw.push == FileEps || raw.push == Eps
    ensures raw.input != FileEps ==> r.input == raw.input
    ensures raw.push != FileEps ==> r.stackPush == raw.push
    ensures r.currentState == raw.from && r.stackTop == raw.top && r.nextState == raw.to
    ensures r.output == CanonicalOutput(raw.output)
  {
    Rule(raw.from, Canonical(raw.input), raw.top, raw.to, Canonical(raw.push), CanonicalOutput(raw.output))
  }

  /** The machine description built from the decoded file, rules kept in file order. */
  function InitializeMachine(data: Data): (m: Machine)
    ensures |m.rules| == |data.rules|
    ensures forall k :: 0 <= k < |data.rules| ==> m.rules[k] == CanonicalRule(data.rules[k])
    ensures m.alphabet == data.alphabet && m.startState == data.start
    ensures m.startStack == data.startStack && m.endState == data.end
  {
    Machine(data.alphabet, seq(|data.rules|, k requires 0 <= k < |data.rules| => CanonicalRule(data.rules[k])),
            data.start, data.startStack, data.end)
  }

  predicate Matches(rule: Rule, state: string, input: string, top: string)
  {
    rule.currentState == state && rule.input == input && rule.stackTop == top
  }

  /** The index of the first rule, in file order, that matches the state, the input and the stack top. */
  function FindRule(rules: seq<Rule>, state: string, input: string, top: string): (r: Option<nat>)
    ensures r.Some? ==> r.value < |rules| && Matches(rules[r.value], state, input, top)
    ensures r.Some? ==> forall j :: 0 <= j < r.value ==> !Matches(rules[j], state, input, top)
    ensures r.None? ==> forall j :: 0 <= j < |rules| ==> !Matches(rules[j], state, input, top)
  {
    if rules == [] then None
    else if Matches(rules[0], state, input, top) then Some(0)
    else match FindRule(rules[1..], state, input, top)
      case None => None
      case Some(k) => Some(k + 1)
  }

  /** Whether a rule's output is appended: neither empty, nor epsilon, nor the file marker. */
  predicate Emits(output: string)
  {
    output != [] && output != Eps && output != FileEps
  }

  /** The configuration a run changes: the current state, the stack (top first) and the accumulated output. */
  datatype Config = Config(state: string, stack: seq<char>, output: string)

  function Initial(m: Machine): Config
  {
    Config(m.startState, [m.startStack], [])
  }

  /** The configuration after a rule fires: the output only ever grows, by the rule's output when it emits. */
  function Apply(rule: Rule, c: Config): (d: Config)
    ensures c.output <= d.output
    ensures Emits(rule.output) ==> d.output[|c.output|..] == rule.output
    ensures !Emits(rule.output) ==> d.output == c.output
  {
    Config(rule.nextState, Rewrite(c.stack, rule.stackTop, rule.stackPush),
           if Emits(rule.output) then c.output + rule.output else c.output)
  }

  predicate Accepting(m: Machine, c: Config)
  {
    c.stack == [] && c.state == m.endState
  }

  /** One trace entry: a snapshot taken just after a rule was applied, and the rule itself. */
  datatype StepRecord = StepRecord(step: nat, currentState: string, currentInput: string,
                                   stack: seq<char>, output: string, rule: Rule)

  function ConfigOf(s: StepRecord): Config
  {
    Config(s.currentState, s.stack, s.output)
  }

  /** The success flag and the trace a run returns, and the configuration it leaves the machine in. */
  datatype Outcome = Outcome(success: bool, steps: seq<StepRecord>, final: Config)

  /**
   * The iterations i .. |chain| of a run from configuration c with the trace
   * so far: each applied rule appends one entry, and a step without a
   * matching rule ends the run at once without one.
   */
  function Exec(m: Machine, chain: string, i: nat, c: Config, steps: seq<StepRecord>): Outcome
    requires i <= |chain| + 1
    decreases |chain| + 1 - i
  {
    if i == |chain| + 1 then
      Outcome(Accepting(m, c), steps, c)
    else
      var input := InputAt(chain, i);
      match FindRule(m.rules, c.state, input, TopSymbol(c.stack))
      case None => Outcome(false, steps, c)
      case Some(k) =>
        var d := Apply(m.rules[k], c);
        Exec(m, chain, i + 1, d, steps + [StepRecord(|steps| + 1, d.state, input, d.stack, d.output, m.rules[k])])
  }

  /** One iteration of a run that applies rule k, unfolded. */
  lemma ExecStep(m: Machine, chain: string, i: nat, c: Config, steps: seq<StepRecord>, k: nat, d: Config)
    requires i <= |chain| && k < |m.rules|
    requires FindRule(m.rules, c.state, InputAt(chain, i), TopSymbol(c.stack)) == Some(k)
    requires d == Apply(m.rules[k], c)
    ensures Exec(m, chain, i, c, steps) ==
      Exec(m, chain, i + 1, d, steps + [StepRecord(|steps| + 1, d.state, InputAt(chain, i), d.stack, d.output, m.rules[k])])
  {
  }

  /** A whole run: reset, alphabet check, then the iterations. */
  function Simulate(m: Machine, chain: string): Outcome
  {
    if !AlphabetValid(chain, m.alphabet) then Outcome(false, [], Initial(m))
    else Exec(m, chain, 0, Initial(m), [])
  }

  /** The configuration before iteration k of a run whose trace is `steps`. */
  function Before(m: Machine, steps: seq<StepRecord>, k: nat): Config
    requires k <= |steps|
  {
    if k == 0 then Initial(m) else ConfigOf(steps[k - 1])
  }

  /**
   * Entry k of a trace is what iteration k does from configuration `prev`:
   * it is numbered k + 1, reads the k-th input, names the first matching
   * rule and holds the configuration that rule produces.
   */
  predicate StepValid(m: Machine, chain: string, k: nat, prev: Config, s: StepRecord)
    requires k <= |chain|
  {
    var input := InputAt(chain, k);
    var found := FindRule(m.rules, prev.state, input, TopSymbol(prev.stack));
    s.step == k + 1 && s.currentInput == input &&
    found.Some? && s.rule == m.rules[found.value] && ConfigOf(s) == Apply(s.rule, prev)
  }

  /** Reference definition of a trace: every entry follows from the one before it, starting from the reset configuration. */
  predicate TraceConsistent(m: Machine, chain: string, steps: seq<StepRecord>)
  {
    |steps| <= |chain| + 1 &&
    forall k {:trigger StepValid(m, chain, k, Before(m, steps, k), steps[k])} ::
      0 <= k < |steps| ==> StepValid(m, chain, k, Before(m, steps, k), steps[k])
  }

  /** A consistent trace extended by an entry that follows from its last configuration stays consistent. */
  lemma TraceExtend(m: Machine, chain: string, steps: seq<StepRecord>, s: StepRecord)
    requires TraceConsistent(m, chain, steps) && |steps| <= |chain|
    requires StepValid(m, chain, |steps|, Before(m, steps, |steps|), s)
    ensures TraceConsistent(m, chain, steps + [s])
    ensures Before(m, steps + [s], |steps| + 1) == ConfigOf(s)
  {
    var steps' := steps + [s];
    forall j | 0 <= j < |steps'|
      ensures StepValid(m, chain, j, Before(m, steps', j), steps'[j])
    {
      if j < |steps| {
        assert steps'[j] == steps[j];
        assert Before(m, steps', j) == Before(m, steps, j);
      }
    }
  }

  /** The loop-shaped Exec keeps the trace consistent and says how the run ended. */
  lemma {:induction false} ExecTrace(m: Machine, chain: string, i: nat, c: Config, steps: seq<StepRecord>)
    requires i <= |chain| + 1 && |steps| == i
    requires TraceConsistent(m, chain, steps) && c == Before(m, steps, i)
    ensures var o := Exec(m, chain, i, c, steps);
      steps <= o.steps && TraceConsistent(m, chain, o.steps) && o.final == Before(m, o.steps, |o.steps|) &&
      (|o.steps| == |chain| + 1 ==> o.success == Accepting(m, o.final)) &&
      (|o.steps| <= |chain| ==>
        !o.success && FindRule(m.rules, o.final.state, InputAt(chain, |o.steps|), TopSymbol(o.final.stack)).None?)
    decreases |chain| + 1 - i
  {
    if i < |chain| + 1 {
      var input := InputAt(chain, i);
      var found := FindRule(m.rules, c.state, input, TopSymbol(c.stack));
      if found.Some? {
        var rule := m.rules[found.value];
        var d := Apply(rule, c);
        var s := StepRecord(|steps| + 1, d.state, input, d.stack, d.output, rule);
        assert StepValid(m, chain, i, c, s);
        TraceExtend(m, chain, steps, s);
        ExecStep(m, chain, i, c, steps, found.value, d);
        ExecTrace(m, chain, i + 1, d, steps + [s]);
      }
    }
  }

  /**
   * What a run returns. A chain outside the alphabet gives failure and an
   * empty trace. Otherwise the trace is consistent, the machine is left in
   * the configuration of the last entry, a trace shorter than |chain| + 1
   * means the next iteration found no rule, and success holds exactly when
   * all |chain| + 1 iterations ran and ended with an empty stack in the end
   * state.
   */
  lemma SimulateTrace(m: Machine, chain: string)
    ensures var o := Simulate(m, chain);
      !AlphabetValid(chain, m.alphabet) ==> !o.success && o.steps == [] && o.final == Initial(m)
    ensures var o := Simulate(m, chain);
      AlphabetValid(chain, m.alphabet) ==>
        TraceConsistent(m, chain, o.steps) && o.final == Before(m, o.steps, |o.steps|) &&
        (|o.steps| <= |chain| ==>
          FindRule(m.rules, o.final.state, InputAt(chain, |o.steps|), TopSymbol(o.final.stack)).None?)
    ensures var o := Simulate(m, chain);
      o.success <==> |o.steps| == |chain| + 1 && Accepting(m, o.final)
  {
    if AlphabetValid(chain, m.alphabet) {
      ExecTrace(m, chain, 0, Initial(m), []);
    }
  }

  /** Trace entries are numbered 1, 2, 3, ... and entry k read the k-th input. */
  lemma StepsNumbered(m: Machine, chain: string)
    ensures var o := Simulate(m, chain);
      |o.steps| <= |chain| + 1 &&
      forall k :: 0 <= k < |o.steps| ==> o.steps[k].step == k + 1 && o.steps[k].currentInput == InputAt(chain, k)
  {
    SimulateTrace(m, chain);
    var o := Simulate(m, chain);
    forall k | 0 <= k < |o.steps|
      ensures o.steps[k].step == k + 1 && o.steps[k].currentInput == InputAt(chain, k)
    {
      assert StepValid(m, chain, k, Before(m, o.steps, k), o.steps[k]);
    }
  }

  /** Along a consistent trace the accumulated output only grows: every entry's output extends the earlier ones. */
  lemma {:induction false} OutputOnlyGrows(m: Machine, chain: string, steps: seq<StepRecord>, j: nat, k: nat)
    requires TraceConsistent(m, chain, steps)
    requires j <= k <= |steps|
    ensures Before(m, steps, j).output <= Before(m, steps, k).output
    decreases k - j
  {
    if j < k {
      OutputOnlyGrows(m, chain, steps, j, k - 1);
      var prev := Before(m, steps, k - 1);
      assert StepValid(m, chain, k - 1, prev, steps[k - 1]);
      assert ConfigOf(steps[k - 1]) == Apply(steps[k - 1].rule, prev);
      assert Before(m, steps, k) == ConfigOf(steps[k - 1]);
    }
  }

  /** The output a run ends with is the last entry's output, or empty when no rule was applied. */
  lemma FinalOutput(m: Machine, chain: string)
    ensures var o := Simulate(m, chain);
      o.final.output == if o.steps == [] then [] else o.steps[|o.steps| - 1].output
    ensures var o := Simulate(m, chain);
      forall k :: 0 <= k < |o.steps| ==> o.steps[k].output <= o.final.output
  {
    SimulateTrace(m, chain);
    var o := Simulate(m, chain);
    forall k | 0 <= k < |o.steps|
      ensures o.steps[k].output <= o.final.output
    {
      if AlphabetValid(chain, m.alphabet) {
        OutputOnlyGrows(m, chain, o.steps, k + 1, |o.steps|);
      }
    }
  }

  /** The JavaScript machine object: the description it was built from and the configuration a run updates. */
  class Automaton {
    const machine: Machine
    var currentState: string
    var stack: seq<char>
    var transformOutput: string

    /** A freshly loaded machine sits in its start state with only the start symbol on the stack and no output. */
    constructor (data: Data)
      ensures machine == InitializeMachine(data)
      ensures currentState == data.start && stack == [data.startStack] && transformOutput == []
    {
      machine := InitializeMachine(data);
      currentState := data.start;
      stack := [data.startStack];
      transformOutput := [];
    }

    /**
     * Applies one rule in place: the next state, the push-then-shift stack
     * rewrite, and the rule's output appended when it emits one.
     */
    method Fire(transition: Rule)
      modifies this
      ensures Config(currentState, stack, transformOutput) ==
        Apply(transition, old(Config(currentState, stack, transformOutput)))
    {
      currentState := transition.nextState;
      if transition.stackPush != Eps {
        stack := Reverse(transition.stackPush) + stack;
      }
      if transition.stackTop != Eps {
        stack := Shift(stack);
      }
      if Emits(transition.output) {
        transformOutput := transformOutput + transition.output;
      }
    }

    /**
     * Runs the chain from a reset configuration and returns the success flag
     * and the trace. The result and the configuration left behind depend only
     * on the machine and the chain, never on what an earlier run left.
     */
    method CheckChain(chain: string) returns (success: bool, steps: seq<StepRecord>)
      modifies this
      ensures success == Simulate(machine, chain).success && steps == Simulate(machine, chain).steps
      ensures Config(currentState, stack, transformOutput) == Simulate(machine, chain).final
    {
      currentState := machine.startState;
      stack := [machine.startStack];
      transformOutput := [];
      steps := [];

      if !AlphabetValid(chain, machine.alphabet) {
        return false, steps;
      }

      for i := 0 to |chain| + 1
        invariant Exec(machine, chain, i, Config(currentState, stack, transformOutput), steps) ==
                  Simulate(machine, chain)
      {
        var currentInput := InputAt(chain, i);
        var found := FindRule(machine.rules, currentState, currentInput, TopSymbol(stack));
        if found.Some? {
          ghost var c := Config(currentState, stack, transformOutput);
          var transition := machine.rules[found.value];
          Fire(transition);
          ExecStep(machine, chain, i, c, steps, found.value, Config(currentState, stack, transformOutput));
          steps := steps + [StepRecord(|steps| + 1, currentState, currentInput, stack, transformOutput, transition)];
        } else {
          return false, steps;
        }
      }

      success := stack == [] && currentState == machine.endState;
    }
  }
}

/** A worked run of the transducer: a machine for a^n b^n whose push rules emit X. */
module TransducerExamples {
  import opened Dpda
  import opened Transducer

  /** The machine as InitializeMachine builds it from the file tuples shown in MarkingLoads. */
  function Marking(): Machine
  {
    Machine(["a", "b"],
      [Rule("q0", "a", "Z", "q0", "AZ", "X"),
       Rule("q0", "a", "A", "q0", "AA", "X"),
       Rule("q0", "b", "A", "q0", Eps, Eps),
       Rule("q0", Eps, "Z", "q0", Eps, FileEps)],
      "q0", 'Z', "q0")
  }

  /** The file form: a missing output field becomes epsilon, and an output of "EPS" is kept as given. */
  lemma MarkingLoads()
    ensures InitializeMachine(Data(["a", "b"],
      [RawRule("q0", "a", "Z", "q0", "AZ", Some("X")),
       RawRule("q0", "a", "A", "q0", "AA", Some("X")),
       RawRule("q0", "b", "A", "q0", "EPS", None),
       RawRule("q0", "EPS", "Z", "q0", "EPS", Some("EPS"))],
      "q0", 'Z', "q0")) == Marking()
  {
  }

  /** The rule chosen in each iteration of the run on "aabb". */
  lemma MarkingChoices()
    ensures FindRule(Marking().rules, "q0", "a", "Z") == Some(0)
    ensures FindRule(Marking().rules, "q0", "a", "A") == Some(1)
    ensures FindRule(Marking().rules, "q0", "b", "A") == Some(2)
    ensures FindRule(Marking().rules, "q0", Eps, "Z") == Some(3)
  {
  }

  /** The first push step of the run on "aabb": A goes on top of Z and X is emitted. */
  lemma MarkingFirstPush()
    ensures Apply(Marking().rules[0], Initial(Marking())) == Config("q0", "AZ", "X")
  {
    RewriteCases("Z", "Z", "AZ");
    assert "AZ"[..1] == "A" && Reverse("A") == "A";
  }

  /** The second push step of the run on "aabb": another A goes on top and a second X is emitted. */
  lemma MarkingSecondPush()
    ensures Apply(Marking().rules[1], Config("q0", "AZ", "X")) == Config("q0", "AAZ", "XX")
  {
    RewriteCases("AZ", "A", "AA");
    assert "AA"[..1] == "A" && Reverse("A") == "A";
  }

  /** The three pop steps of the run on "aabb": each removes the top and emits nothing. */
  lemma MarkingPops()
    ensures Apply(Marking().rules[2], Config("q0", "AAZ", "XX")) == Config("q0", "AZ", "XX")
    ensures Apply(Marking().rules[2], Config("q0", "AZ", "XX")) == Config("q0", "Z", "XX")
    ensures Apply(Marking().rules[3], Config("q0", "Z", "XX")) == Config("q0", [], "XX")
  {
    RewriteCases("AAZ", "A", Eps);
    RewriteCases("AZ", "A", Eps);
    RewriteCases("Z", "Z", Eps);
  }

  /** "aabb" succeeds after five entries, and the output holds one X per push step. */
  lemma MarkingOutput()
    ensures Simulate(Marking(), "aabb").success
    ensures |Simulate(Marking(), "aabb").steps| == 5
    ensures Simulate(Marking(), "aabb").final.output == "XX"
  {
    var m := Marking();
    var r := m.rules;
    var chain := "aabb";
    assert AlphabetValid(chain, m.alphabet);
    var c0 := Initial(m);
    var c1 := Config("q0", "AZ", "X");
    var c2 := Config("q0", "AAZ", "XX");
    var c3 := Config("q0", "AZ", "XX");
    var c4 := Config("q0", "Z", "XX");
    var c5 := Config("q0", [], "XX");
    MarkingChoices();
    MarkingFirstPush();
    MarkingSecondPush();
    MarkingPops();
    assert InputAt(chain, 0) == "a" && InputAt(chain, 1) == "a";
    assert InputAt(chain, 2) == "b" && InputAt(chain, 3) == "b" && InputAt(chain, 4) == Eps;
    assert TopSymbol(c0.stack) == "Z" && TopSymbol(c1.stack) == "A" && TopSymbol(c2.stack) == "A";
    assert TopSymbol(c3.stack) == "A" && TopSymbol(c4.stack) == "Z";
    var s1 := [StepRecord(1, "q0", "a", "AZ", "X", r[0])];
    var s2 := s1 + [StepRecord(2, "q0", "a", "AAZ", "XX", r[1])];
    var s3 := s2 + [StepRecord(3, "q0", "b", "AZ", "XX", r[2])];
    var s4 := s3 + [StepRecord(4, "q0", "b", "Z", "XX", r[2])];
    ExecStep(m, chain, 0, c0, [], 0, c1);
    ExecStep(m, chain, 1, c1, s1, 1, c2);
    ExecStep(m, chain, 2, c2, s2, 2, c3);
    ExecStep(m, chain, 3, c3, s3, 2, c4);
    ExecStep(m, chain, 4, c4, s4, 3, c5);
  }
}
