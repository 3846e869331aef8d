# Deterministic pushdown automaton simulator

A Dafny model of the simulator at the heart of a small browser tool for
deterministic pushdown automata (DPDA). A machine file gives an input
alphabet, a list of rules `(state, input, stack top, next state, push
[, output])`, a start state, a start stack symbol and an end state. The tool
runs a chain of characters through the machine. The same simulator exists
twice:

- `scripts/script.js`, the recogniser: it builds rule records from five-field
  tuples and reports whether the chain is accepted.
- `scripts/script2.js`, the transducer: rules may also carry an output string.
  A run accumulates the outputs of the rules it applies and returns a success
  flag with a step-by-step trace.

The model has three modules:

- `Dpda` (`dpda.dfy`) holds what both variants share. It defines the epsilon
  markers (`"ε"` inside, `"EPS"` in the file) and the input read in iteration
  `i`. It defines the symbol a rule's stack-top field is compared with, the
  push-then-shift stack rewrite, and the alphabet check.
- `Recognizer` (`recognizer.dfy`) models `scripts/script.js`.
- `Transducer` (`transducer.dfy`) models `scripts/script2.js`.

In both variant modules, `initializeMachine` is a pure function from the
decoded file to a `Machine` value. The JavaScript machine object, whose
`currentState`, `stack` and (in the transducer) `transformOutput` a run
updates in place, is the class `Automaton`. `checkChain` is its method
`CheckChain`, a `for` loop over `0 .. |chain|`, and applying one rule in place
is its method `Fire`. Each `CheckChain` is proved equal to a specification
function written in the shape of the loop (`Run`, `Simulate`). The properties
are then proved about that function and about an independent reference
definition:

- For the recogniser the loop is an instance of `Dpda.Iterations`, a loop of
  at most `total` iterations that stops at the first iteration without a
  step. The reference is `Dpda.Reach`, the configuration after `n`
  iterations (`Recognizer.After`).
- For the transducer the reference is `TraceConsistent`: every trace entry
  follows from the one before it.

The recogniser only writes its verdict into the page log. The model returns
it as a value: `AlphabetViolation`, `NoTransition`, `Accepted` or
`NotAccepted`.

Symbols are compared as strings, exactly as the code compares them. The
stack is a `seq<char>` with its top at index 0. The input of iteration `i` is
`[chain[i]]`, or `"ε"` in the extra last iteration. The stack top is
`[stack[0]]`, or `"ε"` when the stack is empty.

Two behaviours of the code are reproduced as written:

- **Push order.** A push string `p` is placed on the stack reversed, so its
  last character ends on top. When the matched stack top is not epsilon, the
  shift that follows removes that character, not the matched symbol. With
  both fields non-epsilon the new stack is `reverse(p without its last
  character) + old stack` (`RewritePushAndPop`, `RewriteCases`). This equals
  the textbook reading exactly when the push string ends with the matched
  symbol and the rest of it reads the same reversed
  (`RewriteAgreesWithTextbook`). That covers the usual rules, whose push
  string has at most two characters and ends with the matched symbol
  (`RewriteAgreesForShortPushes`). For some others it does not: pushing `"AB"`
  over `Z` gives `"AZ"` (`RewriteQuirkExample`).
- **The stack-top field is not canonicalised.** A rule whose stack top is
  `"EPS"` is never chosen (`FileEpsTopNeverMatches`). Since epsilon is the
  string `"ε"`, a chain or stack character `'ε'` matches epsilon rules like
  the end of input or an empty stack does (`InputAt`, `TopSymbol`).

Where the code departs from the usual reading of a DPDA, the model follows
the code:

- In the textbook reading the first symbol of a push string ends on top. The
  code puts the last one on top (see above).
- In the textbook reading epsilon is distinct from every input and stack
  symbol. The code compares strings, so a literal `'ε'` is not distinct.

Behaviour reproduced as written:

- A failing run records no trace entry for the iteration that found no rule;
  the trace simply ends before it.
- `initializeMachine` validates nothing: rules naming states or symbols
  outside the declared lists are loaded as given and used like any other.

The simulator is deterministic because every member here is a function of
the machine and the chain. `CheckChain`'s postconditions do not mention the
state an earlier run left behind, so every run starts from the reset
configuration.

## Model

| member | source | states |
|---|---|---|
| `Dpda.Canonical` | scripts/script.js:31-34 | the file marker `"EPS"` becomes `"ε"`, every other field is kept as given, and the result is never `"EPS"` |
| `Dpda.InputAt` | scripts/script2.js:80-81 | the input of iteration `i` is the `i`-th character as a one-character string; it is epsilon exactly in the extra iteration `i == |chain|` or at a literal `'ε'` |
| `Dpda.TopSymbol` | scripts/script2.js:86 | the compared stack top is the first stack symbol; it is epsilon exactly when the stack is empty or starts with a literal `'ε'` |
| `Dpda.Reverse` | scripts/script2.js:92 | reversing a push string keeps its length; `ReverseAt` states its contents |
| `Dpda.ReverseAt` | scripts/script2.js:92 | position `k` of the reversed push string holds the `k`-th character from the end |
| `Dpda.Shift` | scripts/script.js:87 | `Array.prototype.shift` on the stack: the first symbol is removed, and an empty stack is left alone |
| `Dpda.Rewrite` | scripts/script.js:83-88 | the push-then-shift stack rewrite; `RewriteCases` gives its four cases and `RewriteKeepsBelowTop` shows it never touches the stack below the top symbol |
| `Dpda.RewriteKeepsBelowTop` | scripts/script2.js:91-96 | whatever the rule's fields, everything below the first stack symbol is still at the bottom of the new stack |
| `Dpda.RewritePushAndPop` | scripts/script2.js:91-96 | with both push and top non-epsilon, pushing reversed and then shifting drops the last character of the push string and keeps the whole old stack |
| `Dpda.RewriteCases` | scripts/script.js:83-88 | the four cases of the stack rewrite when the top field is the matched symbol: `reverse(p[..|p|-1]) + s` (or `s[1..]` for an empty `p`), `s[1..]`, `reverse(p) + s`, `s` unchanged |
| `Dpda.RewriteLength` | scripts/script.js:83-88 | one step changes the stack length by `|p|` for a non-epsilon push, minus one for a non-epsilon top |
| `Dpda.RewriteAgreesWithTextbook` | scripts/script2.js:91-96 | for a non-epsilon push over a non-epsilon top, the rewrite equals "pop the top, push `p` with its first symbol on top" if and only if `p` ends with the matched symbol and the rest of `p` reads the same reversed |
| `Dpda.RewriteAgreesForShortPushes` | scripts/script2.js:91-96 | push strings of one or two characters ending with the matched symbol, the usual "keep" and "push one" rules, agree with the textbook reading |
| `Dpda.RewriteQuirkExample` | scripts/script2.js:91-96 | pushing `"AB"` over the matched `Z` leaves `"AZ"`: `B` is removed and `Z` stays |
| `Dpda.AlphabetValid` | scripts/script.js:65 | the chain passes the check exactly when each of its characters, as a one-character string, is in the alphabet list |
| `Dpda.AlphabetViolationAt` | scripts/script2.js:74 | one character outside the alphabet makes the chain fail the check |
| `Dpda.StuckStaysStuck` | scripts/script.js:89-92 | once an iteration finds no step, no later iteration takes place |
| `Dpda.IterationsAgreeWithReach` | scripts/script.js:72-95 | the loop, started from the configuration after `i` iterations, stops early exactly when the reference has no configuration after `total` iterations, and otherwise finishes in that configuration |
| `Dpda.StopsAtFirstStuck` | scripts/script.js:89-92 | if iteration `n` finds no step, the loop stops there, in the configuration reached before it |
| `Recognizer.CanonicalRule` | scripts/script.js:29-35 | input and push are canonicalised (never `"EPS"` afterwards, epsilon exactly for `"EPS"` or `"ε"`); state names and the stack top are kept as given |
| `Recognizer.InitializeMachine` | scripts/script.js:28-47 | one rule record per tuple in file order, and alphabet, start state, start stack symbol and end state taken from the file |
| `Recognizer.FindRule` | scripts/script.js:75-79 | the result is the first rule in file order whose state, input and stack top equal the current ones, and `None` means no rule matches |
| `Recognizer.FileEpsTopNeverMatches` | scripts/script.js:32 | a rule whose stack top is literally `"EPS"` is never chosen |
| `Recognizer.Initial` | scripts/script.js:62-63 | the reset configuration: the start state with only the start symbol on the stack |
| `Recognizer.Accepting` | scripts/script.js:96 | the accept test: an empty stack in the end state |
| `Recognizer.Next` | scripts/script.js:73-92 | one iteration: the first rule matching the state, the input of iteration `i` and the stack top fires, or `None` when no rule matches |
| `Recognizer.Step` | scripts/script.js:72-92 | the loop body as a step function for iterations `0 .. |chain|`, so that the run is an instance of `Dpda.Iterations` |
| `Recognizer.Loop` | scripts/script.js:72-94 | the `for` loop from iteration `i`: it finishes after iteration `|chain|` or stops at the first iteration without a rule; `LoopStep` unfolds it and `RunVerdict` relates it to the reference |
| `Recognizer.Apply` | scripts/script.js:82-88 | the configuration after a rule fires: the rule's next state and the stack given by `Rewrite`; `Automaton.Fire` is proved to update the fields to it |
| `Recognizer.Run` | scripts/script.js:61-101 | an alphabet violation leaves the reset configuration, `Accepted` is returned only in an accepting configuration and `NotAccepted` only outside one; `RunVerdict` relates every verdict to the reference |
| `Recognizer.LoopStep` | scripts/script.js:72-92 | one iteration: after the last one the loop has finished; otherwise the first matching rule fires and the loop goes on, or with no matching rule it stops where it is |
| `Recognizer.RunVerdict` | scripts/script.js:61-101 | each of the four verdicts holds exactly when its condition holds: alphabet failure; some iteration without a rule; all `|chain| + 1` iterations done with an empty stack in the end state; all done otherwise. An alphabet failure leaves the reset configuration; otherwise the final configuration is the reference one |
| `Recognizer.NoTransitionStops` | scripts/script.js:89-92 | if iteration `n` finds no rule, a run on a chain that passes the alphabet check ends with `NoTransition` in the configuration reached before it |
| `Recognizer.Automaton.constructor` | scripts/script.js:36-46 | a loaded machine sits in its start state with only the start symbol on the stack |
| `Recognizer.Automaton.Fire` | scripts/script.js:82-88 | the state becomes the rule's next state and the stack is rewritten as `Rewrite` says |
| `Recognizer.Automaton.CheckChain` | scripts/script.js:61-101 | resets the configuration, then returns the verdict of `Run` and leaves `currentState` and `stack` as `Run` does, whatever an earlier run left |
| `RecognizerExamples.BalancedLoads` | scripts/script.js:28-47 | the file tuples of an `a^n b^n` machine, with `"EPS"` inputs and pushes, load as the rule records shown |
| `RecognizerExamples.BalancedReadsA` | scripts/script.js:75-88 | reading `a` over `Z` picks the first rule and leaves `"AZ"` |
| `RecognizerExamples.BalancedReadsB` | scripts/script.js:75-88 | reading `b` over `A` skips the two `a` rules, picks the pop rule and leaves `"Z"` |
| `RecognizerExamples.BalancedEmptiesStack` | scripts/script.js:72-88 | the extra epsilon iteration over `Z` picks the last rule and empties the stack |
| `RecognizerExamples.BalancedLoop` | scripts/script.js:72-95 | all three iterations on `"ab"` find a rule and the stack ends empty |
| `RecognizerExamples.BalancedAccepts` | scripts/script.js:61-101 | on the `a^n b^n` machine, `"ab"` is accepted with an empty stack |
| `RecognizerExamples.BalancedRejectsForeignCharacter` | scripts/script.js:65-69 | `"abc"` over the alphabet `{a, b}` is an alphabet violation |
| `Transducer.CanonicalOutput` | scripts/script2.js:39 | an absent or empty output field becomes `"ε"`, any other is kept, and the result is never empty |
| `Transducer.CanonicalRule` | scripts/script2.js:33-40 | input and push are canonicalised, the output is `CanonicalOutput` of the sixth field (epsilon when absent or empty), and state names and the stack top are kept as given |
| `Transducer.InitializeMachine` | scripts/script2.js:32-54 | one rule record per tuple in file order, and alphabet, start state, start stack symbol and end state taken from the file |
| `Transducer.FindRule` | scripts/script2.js:83-87 | the result is the first rule in file order whose state, input and stack top equal the current ones, and `None` means no rule matches |
| `Transducer.Initial` | scripts/script2.js:69-71 | the reset configuration: the start state, only the start symbol on the stack, and an empty output |
| `Transducer.Accepting` | scripts/script2.js:116 | the success test: an empty stack in the end state |
| `Transducer.Emits` | scripts/script2.js:98 | a rule emits when its output is non-empty and neither `"ε"` nor `"EPS"`; `Apply` appends the output exactly then |
| `Transducer.Apply` | scripts/script2.js:90-100 | the accumulated output only grows: the rule's output is appended when it is not empty, `"ε"` or `"EPS"`, and nothing changes otherwise |
| `Transducer.Exec` | scripts/script2.js:80-117 | the loop with its trace: an applied rule appends one entry, a missing rule ends the run without one; `ExecTrace` proves the trace it builds consistent and says how it ended |
| `Transducer.ExecStep` | scripts/script2.js:81-109 | an iteration whose first matching rule is `k` continues from that rule's configuration with one trace entry appended: numbered one past the trace, holding the input read, the new state, stack and output, and the rule |
| `Transducer.TraceExtend` | scripts/script2.js:102-109 | appending the entry of the next applied rule keeps a trace consistent |
| `Transducer.ExecTrace` | scripts/script2.js:80-117 | the loop keeps the trace consistent and ends in its last entry's configuration. A trace shorter than `|chain| + 1` means failure because the next iteration had no rule; a full one succeeds exactly in an accepting configuration |
| `Transducer.Simulate` | scripts/script2.js:68-118 | a whole run: reset, alphabet check, then `Exec` from the start configuration; `SimulateTrace`, `StepsNumbered` and `FinalOutput` state what it returns |
| `Transducer.SimulateTrace` | scripts/script2.js:68-118 | an alphabet violation gives failure, an empty trace and the reset configuration; otherwise the trace is consistent, and success holds exactly when all `|chain| + 1` iterations ran and the stack is empty in the end state |
| `Transducer.StepsNumbered` | scripts/script2.js:102-105 | trace entries are numbered 1, 2, 3, … and entry `k` read the `k`-th input; there are at most `|chain| + 1` of them |
| `Transducer.OutputOnlyGrows` | scripts/script2.js:98-100 | along a consistent trace, every later snapshot's output extends every earlier one |
| `Transducer.FinalOutput` | scripts/script2.js:98-111 | the output a run ends with is the last entry's output, or empty with no entries, and extends every entry's output |
| `Transducer.Automaton.constructor` | scripts/script2.js:41-53 | a loaded machine sits in its start state with only the start symbol on the stack and an empty output |
| `Transducer.Automaton.Fire` | scripts/script2.js:90-100 | the state, stack and output become what `Apply` gives for the rule |
| `Transducer.Automaton.CheckChain` | scripts/script2.js:68-118 | resets state, stack and output, then returns `Simulate`'s success flag and trace and leaves the configuration as `Simulate` does, whatever an earlier run left |
| `TransducerExamples.MarkingLoads` | scripts/script2.js:33-40 | file tuples with a missing output and an `"EPS"` output load as the rule records shown |
| `TransducerExamples.MarkingChoices` | scripts/script2.js:83-87 | the rule chosen in each iteration of the run on `"aabb"` |
| `TransducerExamples.MarkingFirstPush` | scripts/script2.js:90-100 | the first push step on `"aabb"` leaves `"AZ"` and emits `X` |
| `TransducerExamples.MarkingSecondPush` | scripts/script2.js:90-100 | the second push step leaves `"AAZ"` and emits a second `X` |
| `TransducerExamples.MarkingPops` | scripts/script2.js:90-100 | the three pop steps remove one symbol each and emit nothing, the `"EPS"` output included |
| `TransducerExamples.MarkingOutput` | scripts/script2.js:68-118 | `"aabb"` succeeds with five trace entries and output `"XX"` |

## Left out

- The page wiring is not modelled: event handlers, file reading, `JSON.parse`, `alert`, the missing-machine check and page navigation (scripts/script.js:3-26, 103-105; scripts/script2.js:3-30, 135-137). These are browser I/O.
- `displayMachine`, `displaySteps` and every message written to the log are not modelled. They are HTML rendering, and the recogniser's verdict message is returned as a `Verdict` value instead.
- The step counter `step` of scripts/script.js:71,93 is not modelled. It only numbers the log lines.
- The formatted `rule` string of a trace entry (scripts/script2.js:108) is not modelled. The entry stores the applied `Rule` record instead.
- The `states` and `in_stack` fields are not modelled. They are only displayed (scripts/script2.js:60) and are never checked against the rules.
- The `in_transform` field is not modelled. It is stored as `outputAlphabet` (scripts/script2.js:45) and never read.
- Decoding is not modelled. A rule tuple is a datatype with exactly five string fields and an optional string sixth. Other tuples are not modelled. In the code, a missing field is `undefined` and a non-string field keeps its JSON value. A numeric state name still compares with `===`, and a numeric output is appended by `+=` (scripts/script2.js:99). A missing or numeric push field throws a `TypeError` at `stackPush.split` when its rule fires (scripts/script.js:84, scripts/script2.js:92).
- The start stack symbol is one character. An empty or multi-character `start_stack` (for which `stack[0] || "ε"` behaves differently) is not modelled.
- The alphabet is a list of strings. An alphabet given as a single string, where `includes` tests substrings, is not modelled.
- JavaScript strings are sequences of UTF-16 code units, and `split("")` and indexing work on those. The model uses Dafny characters.
