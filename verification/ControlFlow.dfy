/**
 Structured control flow of one rate and its lowering to labels and gotos: if
 with elseif and else, until, while, for over an array, break and continue.
 */
module ControlFlow {
  import opened Basics
  import opened Resolved

  // ------------------------------------------------------------ structured

  datatype Cmds = Nil | Cons(head: Cmd, tail: Cmds)

  datatype Cmd =
    | Act(id: nat)
    | If(chain: Chain)                                    // begins with a Branch
    | Loop(isWhile: bool, cond: nat, body: Cmds)          // while or until
    | For(x: string, index: Option<string>, source: nat, body: Cmds)
    | Break
    | Continue

  /** The branches of an if, in order. */
  datatype Chain = EndIf | Branch(cond: nat, body: Cmds, rest: Chain) | Else(body: Cmds)

  /** Statements and conditions may do anything to the store; arrays are read. */
  datatype World = World(
    act: (nat, Store) -> Store, test: (nat, Store) -> bool,
    elements: (nat, Store) -> seq<Val>, number: nat -> Val)

  /** A condition is evaluated by statements before it is tested. */
  function Tested(w: World, cond: nat, s: Store): Store {
    w.act(cond, s)
  }

  function Holds(w: World, cond: nat, s: Store): bool {
    w.test(cond, Tested(w, cond, s))
  }

  /** How commands end.  EmptyFor means that a for loop met an empty array: the
      code runs the body before its first test, so it is no loop over nothing. */
  datatype Result = Normal(s: Store) | Broke(s: Store) | Continued(s: Store) | Unfinished | EmptyFor

  /** Runs commands with at most fuel turns of while and until loops. */
  function RunAll(w: World, cs: Cmds, s: Store, fuel: nat): Result
    decreases fuel, cs, 0
  {
    match cs
    case Nil => Normal(s)
    case Cons(c, rest) =>
      match RunOne(w, c, s, fuel)
      case Normal(s1) => RunAll(w, rest, s1, fuel)
      case other => other
  }

  function RunOne(w: World, c: Cmd, s: Store, fuel: nat): Result
    decreases fuel, c, 0
  {
    match c
    case Act(id) => Normal(w.act(id, s))
    case If(chain) => RunChain(w, chain, s, fuel)
    case Loop(isWhile, cond, body) =>
      if fuel == 0 then Unfinished
      else if Holds(w, cond, s) != isWhile then Normal(Tested(w, cond, s))
      else AfterTurn(w, c, RunAll(w, body, Tested(w, cond, s), fuel - 1), fuel - 1)
    case For(x, index, source, body) =>
      if w.elements(source, s) == [] then EmptyFor
      else RunFor(w, x, index, w.elements(source, s), 0, body, s, fuel)
    case Break => Broke(s)
    case Continue => Continued(s)
  }

  /** The loop again, unless its body left it. */
  function AfterTurn(w: World, c: Cmd, r: Result, fuel: nat): Result
    decreases fuel, c, 1
  {
    match r
    case Normal(s) => RunOne(w, c, s, fuel)
    case Continued(s) => RunOne(w, c, s, fuel)
    case Broke(s) => Normal(s)
    case other => other
  }

  function RunChain(w: World, chain: Chain, s: Store, fuel: nat): Result
    decreases fuel, chain, 0
  {
    match chain
    case EndIf => Normal(s)
    case Branch(cond, body, rest) =>
      if Holds(w, cond, s) then RunAll(w, body, Tested(w, cond, s), fuel)
      else RunChain(w, rest, Tested(w, cond, s), fuel)
    case Else(body) => RunAll(w, body, s, fuel)
  }

  /** The store at the start of turn k of a for loop. */
  function TurnStore(w: World, x: string, index: Option<string>, values: seq<Val>, k: nat, s: Store): Store {
    var s1 := if index.Some? then s[index.value := w.number(k)] else s;
    s1[x := if k < |values| then values[k] else ZERO]
  }

  function RunFor(
    w: World, x: string, index: Option<string>, values: seq<Val>, k: nat, body: Cmds, s: Store, fuel: nat): Result
    decreases fuel, body, 1 + (if k < |values| then |values| - k else 0)
  {
    if k >= |values| then Normal(s)
    else
      match RunAll(w, body, TurnStore(w, x, index, values, k, s), fuel)
      case Normal(s1) => RunFor(w, x, index, values, k + 1, body, s1, fuel)
      case Continued(s1) => RunFor(w, x, index, values, k + 1, body, s1, fuel)
      case Broke(s1) => Normal(s1)
      case other => other
  }

  // --------------------------------------------------------------- lowered

  datatype Instr =
    | Do(id: nat)
    | Test(cond: nat)                          // evaluates the condition into the flag
    | GotoIf(value: bool, target: nat)          // jumps when the flag has this value
    | Goto(target: nat)
    | Label(target: nat)
    | ZeroIndex(i: nat)
    | TakeArray(a: nat, source: nat)
    | TakeLength(l: nat, a: nat)
    | UserIndex(name: string, i: nat)
    | ArrayGet(x: string, a: nat, i: nat)
    | LoopLess(i: nat, l: nat, target: nat)     // adds 1 to i and jumps if it is below l

  datatype Machine = Machine(
    pc: nat, s: Store, flag: bool, index: map<nat, nat>, arrays: map<nat, seq<Val>>, length: map<nat, nat>)

  function At<T>(m: map<nat, T>, k: nat, none: T): T {
    if k in m then m[k] else none
  }

  /** The position of a label. */
  function Find(p: seq<Instr>, target: nat): (i: nat)
    ensures i <= |p|
    ensures i < |p| ==> p[i] == Label(target)
    ensures forall j :: 0 <= j < i ==> p[j] != Label(target)
  {
    if p == [] || p[0] == Label(target) then 0 else 1 + Find(p[1..], target)
  }

  function Step(w: World, p: seq<Instr>, m: Machine): Machine {
    if m.pc >= |p| then m
    else
      match p[m.pc]
      case Do(id) => m.(pc := m.pc + 1, s := w.act(id, m.s))
      case Test(cond) => m.(pc := m.pc + 1, s := Tested(w, cond, m.s), flag := Holds(w, cond, m.s))
      case GotoIf(value, target) => m.(pc := if m.flag == value then Find(p, target) else m.pc + 1)
      case Goto(target) => m.(pc := Find(p, target))
      case Label(_) => m.(pc := m.pc + 1)
      case ZeroIndex(i) => m.(pc := m.pc + 1, index := m.index[i := 0])
      case TakeArray(a, source) => m.(pc := m.pc + 1, arrays := m.arrays[a := w.elements(source, m.s)])
      case TakeLength(l, a) => m.(pc := m.pc + 1, length := m.length[l := |At(m.arrays, a, [])|])
      case UserIndex(name, i) => m.(pc := m.pc + 1, s := m.s[name := w.number(At(m.index, i, 0))])
      case ArrayGet(x, a, i) =>
        var values, k := At(m.arrays, a, []), At(m.index, i, 0);
        m.(pc := m.pc + 1, s := m.s[x := if k < |values| then values[k] else ZERO])
      case LoopLess(i, l, target) =>
        var k := At(m.index, i, 0) + 1;
        m.(pc := if k < At(m.length, l, 0) then Find(p, target) else m.pc + 1, index := m.index[i := k])
  }

  /** The machine after n steps. */
  function Steps(w: World, p: seq<Instr>, m: Machine, n: nat): Machine
    decreases n
  {
    if n == 0 then m else Steps(w, p, Step(w, p, m), n - 1)
  }

  // -------------------------------------------------------------- lowering

  /** Where break and continue go in the innermost loop. */
  datatype Targets = Targets(onBreak: nat, onContinue: nat)

  /** Code and the next free number for synthetic names. */
  datatype Lowered = Lowered(code: seq<Instr>, gen: nat)

  function Branches(chain: Chain): nat {
    match chain
    case EndIf => 0
    case Branch(_, _, rest) => 1 + Branches(rest)
    case Else(_) => 0
  }

  /** There is an elseif or else, so the branches need a common end. */
  predicate Several(chain: Chain) {
    chain.Branch? && !chain.rest.EndIf?
  }

  function Lower(cs: Cmds, gen: nat, tg: Option<Targets>): (r: Lowered)
    ensures gen <= r.gen
    decreases cs
  {
    match cs
    case Nil => Lowered([], gen)
    case Cons(c, rest) =>
      var first := LowerOne(c, gen, tg);
      var more := Lower(rest, first.gen, tg);
      Lowered(first.code + more.code, more.gen)
  }

  function LowerOne(c: Cmd, gen: nat, tg: Option<Targets>): (r: Lowered)
    ensures gen <= r.gen
    decreases c
  {
    match c
    case Act(id) => Lowered([Do(id)], gen)
    case If(chain) =>
      // the end label is only made when the counter taken for it is positive
      var end := if Several(chain) && gen > 0 then Some(gen) else None;
      var lab := if Several(chain) then gen + 1 else gen;
      var b := LowerChain(chain, end, lab, lab + Branches(chain), tg);
      Lowered(b.code + Mark(end), b.gen)
    case Loop(isWhile, cond, body) =>
      var b := Lower(body, gen + 2, Some(Targets(gen + 1, gen)));
      Lowered([Label(gen), Test(cond), GotoIf(!isWhile, gen + 1)] + b.code + [Goto(gen), Label(gen + 1)], b.gen)
    case For(x, index, source, body) =>
      var i, a, l, top, next, end := gen, gen + 1, gen + 2, gen + 3, gen + 4, gen + 5;
      var b := Lower(body, gen + 6, Some(Targets(end, next)));
      Lowered([ZeroIndex(i), TakeArray(a, source), TakeLength(l, a), Label(top)] + CopyIndex(index, i)
              + [ArrayGet(x, a, i)] + b.code + [Label(next), LoopLess(i, l, top), Label(end)], b.gen)
    case Break => Lowered(if tg.Some? then [Goto(tg.value.onBreak)] else [], gen)
    case Continue => Lowered(if tg.Some? then [Goto(tg.value.onContinue)] else [], gen)
  }

  function Mark(end: Option<nat>): seq<Instr> {
    if end.Some? then [Label(end.value)] else []
  }

  function Leave(end: Option<nat>): seq<Instr> {
    if end.Some? then [Goto(end.value)] else []
  }

  function CopyIndex(index: Option<string>, i: nat): seq<Instr> {
    if index.Some? then [UserIndex(index.value, i)] else []
  }

  /** The branches of an if; the label behind each has the next number from lab. */
  function LowerChain(chain: Chain, end: Option<nat>, lab: nat, gen: nat, tg: Option<Targets>): (r: Lowered)
    ensures gen <= r.gen
    decreases chain
  {
    match chain
    case EndIf => Lowered([], gen)
    case Branch(cond, body, rest) =>
      var b := Lower(body, gen, tg);
      var more := LowerChain(rest, end, lab + 1, b.gen, tg);
      Lowered([Test(cond), GotoIf(false, lab)] + b.code + Leave(end) + [Label(lab)] + more.code, more.gen)
    case Else(body) => Lower(body, gen, tg)
  }

  /** break and continue stand inside loops. */
  predicate WellFormed(cs: Cmds, inLoop: bool)
    decreases cs
  {
    match cs
    case Nil => true
    case Cons(c, rest) => WellFormedOne(c, inLoop) && WellFormed(rest, inLoop)
  }

  predicate WellFormedOne(c: Cmd, inLoop: bool)
    decreases c
  {
    match c
    case Act(_) => true
    case If(chain) => chain.Branch? && WellFormedChain(chain, inLoop)
    case Loop(_, _, body) => WellFormed(body, true)
    case For(_, _, _, body) => WellFormed(body, true)
    case Break => inLoop
    case Continue => inLoop
  }

  predicate WellFormedChain(chain: Chain, inLoop: bool)
    decreases chain
  {
    match chain
    case EndIf => true
    case Branch(_, body, rest) => WellFormed(body, inLoop) && WellFormedChain(rest, inLoop)
    case Else(body) => WellFormed(body, inLoop)
  }
}
