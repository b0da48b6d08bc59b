/** The driver of a parser. */
module Driver {
  // The loop of `Parse` (tools/lemon/lempar.c) as a machine on values: one pass through it, and whole token streams.

  import opened Grammars

  /** A table entry, decoded. On the stack `Shift(q)` stands for being in state q, `Reduce(r)`
      for the reduce left pending by the shift half of a SHIFTREDUCE. */
  datatype Act = Shift(state: nat) | ShiftReduce(rule: nat) | Reduce(rule: nat) | Accept | Error

  datatype Row = Row(acts: map<nat, Act>, deflt: Act)

  type Table = seq<Row>

  /** The action of state `q` on symbol `c`: its own entry or else the default. */
  function Lookup(tb: Table, q: nat, c: nat): Act {
    if q >= |tb| then Error
    else if c in tb[q].acts then tb[q].acts[c]
    else tb[q].deflt
  }

  datatype Entry = Entry(act: Act, major: nat)

  const Bottom := Entry(Shift(0), 0)

  /** The parser with its history: tokens shifted so far, rules reduced so far (latest first),
      number of tokens discarded as syntax errors. */
  datatype Parser = Parser(stack: seq<Entry>, shifted: seq<nat>, trail: seq<nat>, errors: nat)

  const Fresh := Parser([Bottom], [], [], 0)

  /** `yy_find_shift_action`: a stateno above YY_MAX_SHIFT is itself the action. */
  function NextAct(tb: Table, stack: seq<Entry>, tok: nat): Act
    requires stack != []
  {
    var top := stack[|stack| - 1].act;
    if top.Shift? then Lookup(tb, top.state, tok) else top
  }

  datatype Outcome =
    | Again(p: Parser)      // reduced; the token is still to be dealt with
    | Consumed(p: Parser)   // the token was shifted, or discarded as an error
    | Accepted(p: Parser)
    | Failed(p: Parser)     // syntax error at end of input
    | Stuck                 // one of the driver's assertions does not hold

  /** `yy_reduce`: pop the right-hand side, then push the left-hand side with the goto action. */
  function ReduceStep(g: Grammar, tb: Table, p: Parser, r: nat): Outcome {
    if r >= |g.rules| || |g.rules[r].rhs| >= |p.stack| then Stuck else
    var under := p.stack[..|p.stack| - |g.rules[r].rhs|];
    var top := under[|under| - 1].act;
    if !top.Shift? then Stuck else
    var act := Lookup(tb, top.state, g.rules[r].lhs);
    if act.Error? || act.ShiftReduce? then Stuck else
    Again(p.(stack := under + [Entry(act, g.rules[r].lhs)], trail := [r] + p.trail))
  }

  /** One pass through the loop of `Parse` with lookahead `tok`. */
  function LoopStep(g: Grammar, tb: Table, p: Parser, tok: nat): Outcome {
    if p.stack == [] then Stuck else
    match NextAct(tb, p.stack, tok)
    case Reduce(r) => ReduceStep(g, tb, p, r)
    case Shift(q) => Consumed(p.(stack := p.stack + [Entry(Shift(q), tok)], shifted := p.shifted + [tok]))
    case ShiftReduce(r) => Consumed(p.(stack := p.stack + [Entry(Reduce(r), tok)], shifted := p.shifted + [tok]))
    case Accept => Accepted(p.(stack := p.stack[..|p.stack| - 1]))
    case Error =>
      if tok == 0 then Failed(p.(stack := [Bottom], errors := p.errors + 1))
      else Consumed(p.(errors := p.errors + 1))
  }

  /** From `p` the loop reduces `n` times on `tok` and then ends in `o`. */
  ghost predicate Settles(g: Grammar, tb: Table, p: Parser, tok: nat, o: Outcome, n: nat)
    decreases n
  {
    var s := LoopStep(g, tb, p, tok);
    if n == 0 then !s.Again? && o == s else s.Again? && Settles(g, tb, s.p, tok, o, n - 1)
  }

  // ----- a whole stream: the tokens of `rest`, then the end-of-input token 0

  datatype Config = Running(p: Parser, rest: seq<nat>) | Halted(outcome: Outcome)

  function Ahead(rest: seq<nat>): nat {
    if rest == [] then 0 else rest[0]
  }

  function StreamStep(g: Grammar, tb: Table, c: Config): Config {
    match c
    case Halted(_) => c
    case Running(p, rest) =>
      match LoopStep(g, tb, p, Ahead(rest))
      case Again(p') => Running(p', rest)
      case Consumed(p') => if rest == [] then Halted(Stuck) else Running(p', rest[1..])
      case other => Halted(other)
  }

  function Run(g: Grammar, tb: Table, c: Config, n: nat): Config
    decreases n
  {
    if n == 0 then c else Run(g, tb, StreamStep(g, tb, c), n - 1)
  }

  /** The parser accepts `w` without reporting a syntax error. */
  ghost predicate Accepts(g: Grammar, tb: Table, w: seq<nat>) {
    exists n: nat :: var c := Run(g, tb, Running(Fresh, w), n);
      c.Halted? && c.outcome.Accepted? && c.outcome.p.errors == 0
  }

  lemma {:induction false} RunPlus(g: Grammar, tb: Table, c: Config, m: nat, n: nat)
    ensures Run(g, tb, c, m + n) == Run(g, tb, Run(g, tb, c, m), n)
    decreases m
  {
    if m > 0 {
      RunPlus(g, tb, StreamStep(g, tb, c), m - 1, n);
    }
  }

  lemma {:induction false} StaysHalted(g: Grammar, tb: Table, c: Config, n: nat)
    requires c.Halted?
    ensures Run(g, tb, c, n) == c
    decreases n
  {
    if n > 0 {
      StaysHalted(g, tb, c, n - 1);
    }
  }

  lemma OneEnd(g: Grammar, tb: Table, c: Config, m: nat, n: nat)
    requires Run(g, tb, c, m).Halted? && Run(g, tb, c, n).Halted?
    ensures Run(g, tb, c, m) == Run(g, tb, c, n)
  {
    if m <= n {
      RunPlus(g, tb, c, m, n - m);
      StaysHalted(g, tb, Run(g, tb, c, m), n - m);
    } else {
      RunPlus(g, tb, c, n, m - n);
      StaysHalted(g, tb, Run(g, tb, c, n), m - n);
    }
  }
}
