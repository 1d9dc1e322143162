/**
  Advice chains and their dispatch, as `spec/callbacker_spec.rb` fixes them
  for `Aspectory::Callbacker`.

  Method bodies and blocks are written in a small straight-line language
  (`Code`) that is just rich enough for the methods of the spec's test
  class: push a value on the receiver's `@results`, call the block, throw
  to a tag, return a value.  Running code gives a trace (what it pushed on
  `@results`) and an outcome: a return, a throw carrying (tag, payload), or
  a raised error.

  Dispatch of an advised method:
  1. every before advice runs, in order, with no arguments; a throw stops at
     once; otherwise, if any of them returned a falsy value, the call ends
     there with the first such value and the original never runs;
  2. with no around advice the original runs with the caller's arguments and
     block; otherwise every around advice runs, in order, with no arguments
     and a continuation (its block) that runs the original; when none of
     them calls its continuation the call is halted: the after advice are
     skipped and the last around advice's value is the result;
  3. every after advice runs, in order, with the result as its argument;
     their values are ignored, so the result is the original's;
  4. the whole call is wrapped in `catch(name)`: a throw to the method's own
     name makes the call return the payload; a throw to another tag goes on.
*/
module Chains {
  import opened Wrappers
  import opened Lists
  import opened MethodNames

  type BlockId = nat

  datatype Value = Nil | Bool(b: bool) | Sym(s: Name) | Obj(id: nat)

  /** Ruby's truthiness: everything but nil and false. */
  predicate Truthy(v: Value) {
    !v.Nil? && v != Bool(false)
  }

  datatype Error = NoMethodError | LocalJumpError | NameError

  /** A value computed from the arguments. */
  datatype Term =
    | Lit(v: Value)         // a constant
    | Arg(default: Value)   // the first argument, or `default` when none is passed
    | ArgIs(v: Value)       // whether the first argument equals `v`

  datatype Stmt =
    | Guard(default: Value)           // `return arg unless arg`
    | Push(t: Term)                   // `@results << t`
    | PushBlockOrArg(default: Value)  // `@results << (block_given? ? block.call : arg)`
    | Yield                           // `yield` / `fn.call`
    | Throw(tag: Name, payload: Term) // `throw tag, payload`

  /** A method body or block: statements, then the returned term. */
  datatype Code = Code(body: seq<Stmt>, ret: Term)

  datatype Outcome = Returned(v: Value) | Thrown(tag: Name, payload: Value) | Raised(error: Error)

  /** What a call does: the values it pushed on `@results`, and how it ended. */
  datatype Effect = Effect(trace: seq<Value>, out: Outcome)

  /** An effect, and whether the code called its block. */
  datatype Run = Run(trace: seq<Value>, out: Outcome, yielded: bool)

  function Eval(t: Term, args: seq<Value>): Value {
    match t
    case Lit(v) => v
    case Arg(d) => if |args| > 0 then args[0] else d
    case ArgIs(v) => Bool(|args| > 0 && args[0] == v)
  }

  /** Code run after `pre` was pushed and, when `y`, after the block was called. */
  function After(pre: seq<Value>, y: bool, r: Run): Run {
    Run(pre + r.trace, r.out, y || r.yielded)
  }

  /**
    Runs statements with the given arguments; `blk` is what calling the block
    does, or None when no block is given.
  */
  function Exec(body: seq<Stmt>, ret: Term, args: seq<Value>, blk: Option<Effect>): (r: Run)
    ensures !blk.Some? ==> !r.yielded
    ensures r.yielded && blk.Some? && !blk.value.out.Returned? ==> r.out == blk.value.out
    decreases |body|
  {
    if body == [] then Run([], Returned(Eval(ret, args)), false)
    else
      var rest := body[1..];
      match body[0]
      case Guard(d) =>
        var a := Eval(Arg(d), args);
        if !Truthy(a) then Run([], Returned(a), false) else Exec(rest, ret, args, blk)
      case Push(t) => After([Eval(t, args)], false, Exec(rest, ret, args, blk))
      case PushBlockOrArg(d) =>
        if blk.None? then After([Eval(Arg(d), args)], false, Exec(rest, ret, args, blk))
        else if !blk.value.out.Returned? then Run(blk.value.trace, blk.value.out, true)
        else After(blk.value.trace + [blk.value.out.v], true, Exec(rest, ret, args, blk))
      case Yield =>
        if blk.None? then Run([], Raised(LocalJumpError), false)
        else if !blk.value.out.Returned? then Run(blk.value.trace, blk.value.out, true)
        else After(blk.value.trace, true, Exec(rest, ret, args, blk))
      case Throw(tag, t) => Run([], Thrown(tag, Eval(t, args)), false)
  }

  function RunCode(c: Code, args: seq<Value>, blk: Option<Effect>): Run {
    Exec(c.body, c.ret, args, blk)
  }

  function AsEffect(r: Run): Effect {
    Effect(r.trace, r.out)
  }

  /** Advice is a block (compared by identity) or the name of a method of the receiver. */
  datatype Advice = Block(id: BlockId) | Named(name: Name)

  /** The code of every block object. */
  type Procs = BlockId -> Code

  /** One advised method: its original body and the three advice lists. */
  datatype Chain = Chain(original: Code, before: seq<Advice>, after: seq<Advice>, around: seq<Advice>)

  /** Runs advice against the receiver's methods; a name it lacks raises NoMethodError. */
  function RunAdvice(a: Advice, procs: Procs, methods: map<Name, Code>, args: seq<Value>, blk: Option<Effect>): Run {
    match a
    case Block(id) => RunCode(procs(id), args, blk)
    case Named(n) => if n in methods then RunCode(methods[n], args, blk) else Run([], Raised(NoMethodError), false)
  }

  /** Before advice so far: what they pushed, the first falsy value, and a throw or error. */
  datatype BeforeStage = BeforeStage(trace: seq<Value>, veto: Option<Value>, stop: Option<Outcome>)

  function BeforeStep(s: BeforeStage, r: Run): BeforeStage {
    if !r.out.Returned? then BeforeStage(s.trace + r.trace, s.veto, Some(r.out))
    else BeforeStage(s.trace + r.trace, if s.veto.None? && !Truthy(r.out.v) then Some(r.out.v) else s.veto, None)
  }

  /** Runs before advice in order until one throws or raises. */
  function Befores(bs: seq<Advice>, procs: Procs, methods: map<Name, Code>): BeforeStage
    decreases |bs|
  {
    if bs == [] then BeforeStage([], None, None)
    else
      var s := Befores(bs[..|bs| - 1], procs, methods);
      if s.stop.Some? then s
      else BeforeStep(s, RunAdvice(bs[|bs| - 1], procs, methods, [], None))
  }

  /** Around advice so far: what they pushed, whether one called its continuation, the last value. */
  datatype AroundStage = AroundStage(trace: seq<Value>, proceeded: bool, last: Value, stop: Option<Outcome>)

  function AroundStep(s: AroundStage, r: Run): AroundStage {
    if !r.out.Returned? then AroundStage(s.trace + r.trace, s.proceeded || r.yielded, s.last, Some(r.out))
    else AroundStage(s.trace + r.trace, s.proceeded || r.yielded, r.out.v, None)
  }

  /** Runs around advice in order, each with continuation `k`, until one throws or raises. */
  function Arounds(arounds: seq<Advice>, procs: Procs, methods: map<Name, Code>, k: Effect): AroundStage
    decreases |arounds|
  {
    if arounds == [] then AroundStage([], false, Nil, None)
    else
      var s := Arounds(arounds[..|arounds| - 1], procs, methods, k);
      if s.stop.Some? then s
      else AroundStep(s, RunAdvice(arounds[|arounds| - 1], procs, methods, [], Some(k)))
  }

  /** After advice so far: what they pushed, and a throw or error. */
  datatype AfterStage = AfterStage(trace: seq<Value>, stop: Option<Outcome>)

  function AfterStep(s: AfterStage, r: Run): AfterStage {
    AfterStage(s.trace + r.trace, if r.out.Returned? then None else Some(r.out))
  }

  /** Runs after advice in order, each with `result` as its argument, until one throws or raises. */
  function Afters(afters: seq<Advice>, procs: Procs, methods: map<Name, Code>, result: Value): AfterStage
    decreases |afters|
  {
    if afters == [] then AfterStage([], None)
    else
      var s := Afters(afters[..|afters| - 1], procs, methods, result);
      if s.stop.Some? then s
      else AfterStep(s, RunAdvice(afters[|afters| - 1], procs, methods, [result], None))
  }

  /** The middle of the call: the round of around advice, or the original alone. */
  datatype Middle = Middle(trace: seq<Value>, out: Outcome, proceed: bool)

  function MiddleOf(arounds: seq<Advice>, procs: Procs, methods: map<Name, Code>, k: Effect): Middle {
    if arounds == [] then Middle(k.trace, k.out, true)
    else
      var s := Arounds(arounds, procs, methods, k);
      if s.stop.Some? then Middle(s.trace, s.stop.value, false)
      else if s.proceeded then Middle(s.trace, k.out, true)
      else Middle(s.trace, Returned(s.last), false)
  }

  /** `catch(name) { ... }`: a throw to the method's own name returns its payload. */
  function Catch(name: Name, e: Effect): (r: Effect)
    ensures r.trace == e.trace
    ensures e.out.Thrown? && e.out.tag == name ==> r.out == Returned(e.out.payload)
    ensures !(e.out.Thrown? && e.out.tag == name) ==> r.out == e.out
  {
    if e.out.Thrown? && e.out.tag == name then Effect(e.trace, Returned(e.out.payload)) else e
  }

  /** The uncaught effect of one call of the advised method `name`. */
  function Woven(c: Chain, procs: Procs, methods: map<Name, Code>, args: seq<Value>, blk: Option<Effect>): Effect {
    var b := Befores(c.before, procs, methods);
    if b.stop.Some? then Effect(b.trace, b.stop.value)
    else if b.veto.Some? then Effect(b.trace, Returned(b.veto.value))
    else
      var m := MiddleOf(c.around, procs, methods, AsEffect(RunCode(c.original, args, blk)));
      if !m.out.Returned? || !m.proceed then Effect(b.trace + m.trace, m.out)
      else
        var a := Afters(c.after, procs, methods, m.out.v);
        Effect(b.trace + m.trace + a.trace, if a.stop.Some? then a.stop.value else m.out)
  }

  /** One call of the advised method `name` through its dispatcher. */
  function Invoke(c: Chain, name: Name, procs: Procs, methods: map<Name, Code>, args: seq<Value>, blk: Option<Effect>): Effect {
    Catch(name, Woven(c, procs, methods, args, blk))
  }

  /** `__PRISTINE__(name, *args, &blk)`: the original with no advice, or NoMethodError. */
  function Pristine(chains: map<Name, Chain>, name: Name, args: seq<Value>, blk: Option<Effect>): Effect {
    if name in chains then AsEffect(RunCode(chains[name].original, args, blk))
    else Effect([], Raised(NoMethodError))
  }

  /** One class's share of an instance's dispatch: the methods it defines and its chains. */
  datatype Frame = Frame(methods: map<Name, Code>, chains: map<Name, Chain>)

  /** The advised method that `alias` is the `_without_callbacks` name of, in `f`. */
  predicate IsAliasIn(f: Frame, alias: Name) {
    var o := AliasedName(alias);
    o.Some? && o.value in f.chains
  }

  /** Whether a class answers `name` itself: a dispatcher, an alias, or a plain method. */
  predicate Answers(f: Frame, name: Name) {
    name in f.chains || IsAliasIn(f, name) || name in f.methods
  }

  /** The methods an instance sees: a subclass's definitions hide its ancestors'. */
  function Visible(frames: seq<Frame>): map<Name, Code>
    decreases |frames|
  {
    if frames == [] then map[] else Visible(frames[1..]) + frames[0].methods
  }

  /**
    Method lookup from the instance's class upward (`frames[0]` is the
    instance's class); named advice resolve against `methods`, all the
    methods the receiver sees.
  */
  function Lookup(frames: seq<Frame>, methods: map<Name, Code>, name: Name, procs: Procs, args: seq<Value>, blk: Option<Effect>): Effect
    decreases |frames|
  {
    if frames == [] then Effect([], Raised(NoMethodError))
    else
      var f := frames[0];
      if name in f.chains then Invoke(f.chains[name], name, procs, methods, args, blk)
      else if IsAliasIn(f, name) then Pristine(f.chains, AliasedName(name).value, args, blk)
      else if name in f.methods then AsEffect(RunCode(f.methods[name], args, blk))
      else Lookup(frames[1..], methods, name, procs, args, blk)
  }

  /** Calling `name` on an instance whose class and ancestors are `frames`. */
  function Send(frames: seq<Frame>, name: Name, procs: Procs, args: seq<Value>, blk: Option<Effect>): Effect {
    Lookup(frames, Visible(frames), name, procs, args, blk)
  }

  // ---------------------------------------------------------------------
  // Registration

  datatype Position = BeforePos | AfterPos | AroundPos

  /** Adds advice at a position; an advice already in that list is not added again. */
  function Extend(c: Chain, p: Position, xs: seq<Advice>): Chain {
    match p
    case BeforePos => c.(before := Uniq(c.before + xs))
    case AfterPos => c.(after := Uniq(c.after + xs))
    case AroundPos => c.(around := Uniq(c.around + xs))
  }

  ghost predicate DistinctLists(c: Chain) {
    NoDuplicates(c.before) && NoDuplicates(c.after) && NoDuplicates(c.around)
  }

  /**
    Registration keeps every list free of duplicates, keeps what was there
    in place and adds only at the position it names.
  */
  lemma ExtendKeeps(c: Chain, p: Position, xs: seq<Advice>)
    requires DistinctLists(c)
    ensures var e := Extend(c, p, xs);
      && DistinctLists(e)
      && e.original == c.original
      && (p == BeforePos ==> e.after == c.after && e.around == c.around && c.before <= e.before)
      && (p == AfterPos ==> e.before == c.before && e.around == c.around && c.after <= e.after)
      && (p == AroundPos ==> e.before == c.before && e.after == c.after && c.around <= e.around)
  {
    match p
    case BeforePos => UniqExtends(c.before, xs);
    case AfterPos => UniqExtends(c.after, xs);
    case AroundPos => UniqExtends(c.around, xs);
  }

  /** Registering the same advice twice leaves the chain as one registration does. */
  lemma ExtendIdempotent(c: Chain, p: Position, xs: seq<Advice>)
    ensures Extend(Extend(c, p, xs), p, xs) == Extend(c, p, xs)
  {
    match p
    case BeforePos => UniqAbsorbs(c.before, xs);
    case AfterPos => UniqAbsorbs(c.after, xs);
    case AroundPos => UniqAbsorbs(c.around, xs);
  }

  /** The chain of `original` with the advice `xs` at `p` and nothing elsewhere. */
  function Advised(original: Code, p: Position, xs: seq<Advice>): Chain {
    match p
    case BeforePos => Chain(original, xs, [], [])
    case AfterPos => Chain(original, [], xs, [])
    case AroundPos => Chain(original, [], [], xs)
  }

  /**
    On a method with no advice yet, registering advice without repeats
    records it as given, in order.
  */
  lemma ExtendFresh(original: Code, p: Position, xs: seq<Advice>)
    requires NoDuplicates(xs)
    ensures Extend(Chain(original, [], [], []), p, xs) == Advised(original, p, xs)
  {
    assert [] + xs == xs;
    UniqOfDistinct(xs);
  }

  /**
    Two registrations at one position, together without repeats, list the
    first one's advice and then the second one's.
  */
  lemma ExtendFreshTwice(original: Code, p: Position, xs: seq<Advice>, ys: seq<Advice>)
    requires NoDuplicates(xs + ys)
    ensures Extend(Extend(Chain(original, [], [], []), p, xs), p, ys) == Advised(original, p, xs + ys)
  {
    assert NoDuplicates(xs) by {
      forall i, j | 0 <= i < j < |xs| ensures xs[i] != xs[j] {
        assert xs[i] == (xs + ys)[i] && xs[j] == (xs + ys)[j];
      }
    }
    ExtendFresh(original, p, xs);
    UniqOfDistinct(xs + ys);
  }

  // ---------------------------------------------------------------------
  // Properties of dispatch

  /** Once a stage has stopped, later advice of that stage change nothing. */
  lemma {:induction false} BeforesStopped(bs: seq<Advice>, procs: Procs, methods: map<Name, Code>, i: nat)
    requires i <= |bs| && Befores(bs[..i], procs, methods).stop.Some?
    ensures Befores(bs, procs, methods) == Befores(bs[..i], procs, methods)
    decreases |bs| - i
  {
    if i < |bs| {
      assert bs[..i + 1][..i] == bs[..i];
      BeforesStopped(bs, procs, methods, i + 1);
    } else {
      assert bs[..i] == bs;
    }
  }

  lemma {:induction false} AroundsStopped(arounds: seq<Advice>, procs: Procs, methods: map<Name, Code>, k: Effect, i: nat)
    requires i <= |arounds| && Arounds(arounds[..i], procs, methods, k).stop.Some?
    ensures Arounds(arounds, procs, methods, k) == Arounds(arounds[..i], procs, methods, k)
    decreases |arounds| - i
  {
    if i < |arounds| {
      assert arounds[..i + 1][..i] == arounds[..i];
      AroundsStopped(arounds, procs, methods, k, i + 1);
    } else {
      assert arounds[..i] == arounds;
    }
  }

  lemma {:induction false} AftersStopped(afters: seq<Advice>, procs: Procs, methods: map<Name, Code>, v: Value, i: nat)
    requires i <= |afters| && Afters(afters[..i], procs, methods, v).stop.Some?
    ensures Afters(afters, procs, methods, v) == Afters(afters[..i], procs, methods, v)
    decreases |afters| - i
  {
    if i < |afters| {
      assert afters[..i + 1][..i] == afters[..i];
      AftersStopped(afters, procs, methods, v, i + 1);
    } else {
      assert afters[..i] == afters;
    }
  }

  /** `a` returns normally when run with these arguments and block. */
  predicate Completes(a: Advice, procs: Procs, methods: map<Name, Code>, args: seq<Value>, blk: Option<Effect>) {
    RunAdvice(a, procs, methods, args, blk).out.Returned?
  }

  /** `a` returns a truthy value when run with no arguments and no block. */
  predicate Approves(a: Advice, procs: Procs, methods: map<Name, Code>) {
    var o := RunAdvice(a, procs, methods, [], None).out;
    o.Returned? && Truthy(o.v)
  }

  /** The values pushed by running each advice in turn. */
  function Traces(xs: seq<Advice>, procs: Procs, methods: map<Name, Code>, args: seq<Value>, blk: Option<Effect>): seq<Value>
    decreases |xs|
  {
    if xs == [] then []
    else Traces(xs[..|xs| - 1], procs, methods, args, blk) + RunAdvice(xs[|xs| - 1], procs, methods, args, blk).trace
  }

  /**
    Ordering and veto of before advice: when none throws or raises, all of
    them run in registration order, and the call is vetoed exactly when one
    of them returns a falsy value.
  */
  lemma {:induction false} BeforesAllRun(bs: seq<Advice>, procs: Procs, methods: map<Name, Code>)
    requires forall i :: 0 <= i < |bs| ==> Completes(bs[i], procs, methods, [], None)
    ensures var s := Befores(bs, procs, methods);
      && s.stop.None?
      && s.trace == Traces(bs, procs, methods, [], None)
      && (s.veto.None? <==> forall i :: 0 <= i < |bs| ==> Approves(bs[i], procs, methods))
    decreases |bs|
  {
    if bs != [] {
      var init := bs[..|bs| - 1];
      forall i | 0 <= i < |init| ensures Completes(init[i], procs, methods, [], None) {
        assert init[i] == bs[i];
      }
      BeforesAllRun(init, procs, methods);
      var s := Befores(init, procs, methods);
      if s.veto.Some? {
        var j :| 0 <= j < |init| && !Approves(init[j], procs, methods);
        assert init[j] == bs[j];
      } else {
        forall i | 0 <= i < |bs| - 1 ensures Approves(bs[i], procs, methods) {
          assert init[i] == bs[i];
        }
      }
    }
  }

  /** After advice, when none throws or raises, all run in order and cannot stop the call. */
  lemma {:induction false} AftersAllRun(afters: seq<Advice>, procs: Procs, methods: map<Name, Code>, v: Value)
    requires forall i :: 0 <= i < |afters| ==> Completes(afters[i], procs, methods, [v], None)
    ensures var s := Afters(afters, procs, methods, v);
      s.stop.None? && s.trace == Traces(afters, procs, methods, [v], None)
    decreases |afters|
  {
    if afters != [] {
      var init := afters[..|afters| - 1];
      forall i | 0 <= i < |init| ensures Completes(init[i], procs, methods, [v], None) {
        assert init[i] == afters[i];
      }
      AftersAllRun(init, procs, methods, v);
    }
  }

  /**
    The veto is the first falsy value: when the before advice complete and
    advice `j` is the first one that returns a falsy value, the veto is
    that value.
  */
  lemma {:induction false} FirstVeto(bs: seq<Advice>, procs: Procs, methods: map<Name, Code>, j: nat)
    requires forall i :: 0 <= i < |bs| ==> Completes(bs[i], procs, methods, [], None)
    requires j < |bs| && !Approves(bs[j], procs, methods)
    requires forall i :: 0 <= i < j ==> Approves(bs[i], procs, methods)
    ensures var s := Befores(bs, procs, methods);
      s.veto.Some? && Returned(s.veto.value) == RunAdvice(bs[j], procs, methods, [], None).out
    decreases |bs|
  {
    var init := bs[..|bs| - 1];
    forall i | 0 <= i < |init| ensures Completes(init[i], procs, methods, [], None) {
      assert init[i] == bs[i];
    }
    BeforesAllRun(init, procs, methods);
    if j < |bs| - 1 {
      forall i | 0 <= i < j ensures Approves(init[i], procs, methods) {
        assert init[i] == bs[i];
      }
      assert init[j] == bs[j];
      FirstVeto(init, procs, methods, j);
    } else {
      forall i | 0 <= i < |init| ensures Approves(init[i], procs, methods) {
        assert init[i] == bs[i];
      }
    }
  }

  /**
    Before-halting: when the before advice complete and one returns a falsy
    value, the original and the after advice never run; the trace is the
    before advice's alone and the call returns a falsy value, namely that
    of the first before advice that returned one.
  */
  lemma BeforeVeto(c: Chain, name: Name, procs: Procs, methods: map<Name, Code>, args: seq<Value>, blk: Option<Effect>, j: nat)
    requires forall i :: 0 <= i < |c.before| ==> Completes(c.before[i], procs, methods, [], None)
    requires j < |c.before| && !Approves(c.before[j], procs, methods)
    ensures var e := Invoke(c, name, procs, methods, args, blk);
      && e.trace == Traces(c.before, procs, methods, [], None)
      && e.out.Returned? && !Truthy(e.out.v)
      && ((forall i :: 0 <= i < j ==> Approves(c.before[i], procs, methods)) ==>
            e.out == RunAdvice(c.before[j], procs, methods, [], None).out)
  {
    BeforesAllRun(c.before, procs, methods);
    VetoFalsy(c.before, procs, methods);
    if forall i :: 0 <= i < j ==> Approves(c.before[i], procs, methods) {
      FirstVeto(c.before, procs, methods, j);
    }
  }

  /** A recorded veto is a falsy value. */
  lemma {:induction false} VetoFalsy(bs: seq<Advice>, procs: Procs, methods: map<Name, Code>)
    ensures var s := Befores(bs, procs, methods); s.veto.Some? ==> !Truthy(s.veto.value)
    decreases |bs|
  {
    if bs != [] {
      VetoFalsy(bs[..|bs| - 1], procs, methods);
    }
  }

  /**
    Ordering and after-non-halting: with truthy before advice, no around
    advice and nothing thrown, the trace is the before advice's, then the
    original's, then the after advice's, each in registration order, and the
    call returns the original's value whatever the after advice return.
  */
  lemma PlainOrder(c: Chain, name: Name, procs: Procs, methods: map<Name, Code>, args: seq<Value>, blk: Option<Effect>)
    requires c.around == []
    requires forall i :: 0 <= i < |c.before| ==> Approves(c.before[i], procs, methods)
    requires RunCode(c.original, args, blk).out.Returned?
    requires var v := RunCode(c.original, args, blk).out.v;
      forall i :: 0 <= i < |c.after| ==> Completes(c.after[i], procs, methods, [v], None)
    ensures var o := RunCode(c.original, args, blk);
      var e := Invoke(c, name, procs, methods, args, blk);
      && e.trace == Traces(c.before, procs, methods, [], None) + o.trace + Traces(c.after, procs, methods, [o.out.v], None)
      && e.out == o.out
  {
    BeforesAllRun(c.before, procs, methods);
    AftersAllRun(c.after, procs, methods, RunCode(c.original, args, blk).out.v);
  }

  /**
    Short-circuit from a before advice: when the first `j` before advice
    complete and advice `j` throws the method's own name, the call returns
    the payload and the trace holds nothing of the original.
  */
  lemma BeforeThrow(c: Chain, name: Name, procs: Procs, methods: map<Name, Code>, args: seq<Value>, blk: Option<Effect>, j: nat, payload: Value)
    requires j < |c.before|
    requires forall i :: 0 <= i < j ==> Completes(c.before[i], procs, methods, [], None)
    requires RunAdvice(c.before[j], procs, methods, [], None).out == Thrown(name, payload)
    ensures var e := Invoke(c, name, procs, methods, args, blk);
      && e.out == Returned(payload)
      && e.trace == Traces(c.before[..j + 1], procs, methods, [], None)
  {
    var pre := c.before[..j];
    forall i | 0 <= i < |pre| ensures Completes(pre[i], procs, methods, [], None) {
      assert pre[i] == c.before[i];
    }
    BeforesAllRun(pre, procs, methods);
    assert c.before[..j + 1][..j] == pre;
    BeforesStopped(c.before, procs, methods, j + 1);
  }

  /** `a` calls its continuation `k` when run as around advice. */
  predicate Yields(a: Advice, procs: Procs, methods: map<Name, Code>, k: Effect) {
    RunAdvice(a, procs, methods, [], Some(k)).yielded
  }

  /**
    The round of around advice, when none throws or raises: all of them run
    in order, each with the continuation; the round proceeded exactly when
    one of them called it; the last value is the last advice's.
  */
  lemma {:induction false} AroundsAllRun(arounds: seq<Advice>, procs: Procs, methods: map<Name, Code>, k: Effect)
    requires forall i :: 0 <= i < |arounds| ==> Completes(arounds[i], procs, methods, [], Some(k))
    ensures var s := Arounds(arounds, procs, methods, k);
      && s.stop.None?
      && s.trace == Traces(arounds, procs, methods, [], Some(k))
      && (s.proceeded <==> exists i :: 0 <= i < |arounds| && Yields(arounds[i], procs, methods, k))
      && (arounds != [] ==> s.last == RunAdvice(arounds[|arounds| - 1], procs, methods, [], Some(k)).out.v)
    decreases |arounds|
  {
    if arounds != [] {
      var init := arounds[..|arounds| - 1];
      forall i | 0 <= i < |init| ensures Completes(init[i], procs, methods, [], Some(k)) {
        assert init[i] == arounds[i];
      }
      AroundsAllRun(init, procs, methods, k);
      var s := Arounds(init, procs, methods, k);
      if s.proceeded {
        var j :| 0 <= j < |init| && Yields(init[j], procs, methods, k);
        assert init[j] == arounds[j];
      } else {
        forall i | 0 <= i < |arounds| - 1 ensures !Yields(arounds[i], procs, methods, k) {
          assert init[i] == arounds[i];
        }
      }
    }
  }

  /** Truthy before advice let the call through with nothing logged but their own traces. */
  lemma ApprovedBefores(bs: seq<Advice>, procs: Procs, methods: map<Name, Code>)
    requires forall i :: 0 <= i < |bs| ==> Approves(bs[i], procs, methods)
    ensures Befores(bs, procs, methods) == BeforeStage(Traces(bs, procs, methods, [], None), None, None)
  {
    BeforesAllRun(bs, procs, methods);
  }

  /**
    Around-halting: when the before advice approve and no around advice
    calls its continuation, the call is halted: the original and the after
    advice never run, every around advice runs in order, and the call
    returns the last one's value.
  */
  lemma AroundHalts(c: Chain, name: Name, procs: Procs, methods: map<Name, Code>, args: seq<Value>, blk: Option<Effect>)
    requires forall i :: 0 <= i < |c.before| ==> Approves(c.before[i], procs, methods)
    requires c.around != []
    requires var k := AsEffect(RunCode(c.original, args, blk));
      forall i :: 0 <= i < |c.around| ==>
        Completes(c.around[i], procs, methods, [], Some(k)) && !Yields(c.around[i], procs, methods, k)
    ensures var k := AsEffect(RunCode(c.original, args, blk));
      var e := Invoke(c, name, procs, methods, args, blk);
      && e.trace == Traces(c.before, procs, methods, [], None) + Traces(c.around, procs, methods, [], Some(k))
      && e.out == RunAdvice(c.around[|c.around| - 1], procs, methods, [], Some(k)).out
  {
    var k := AsEffect(RunCode(c.original, args, blk));
    ApprovedBefores(c.before, procs, methods);
    AroundsAllRun(c.around, procs, methods, k);
  }

  /**
    An around advice that calls its continuation and returns normally only
    does so when the original returned normally.
  */
  lemma YieldedReturned(a: Advice, procs: Procs, methods: map<Name, Code>, k: Effect)
    requires Completes(a, procs, methods, [], Some(k)) && Yields(a, procs, methods, k)
    ensures k.out.Returned?
  {
    match a
    case Block(id) =>
    case Named(n) =>
  }

  /**
    Around wrapping: when the before advice approve, every around advice
    returns normally and one of them calls its continuation, the original
    runs (inside the around advice's traces) and returns normally, every
    after advice then runs on its value, and the call returns the
    original's value.
  */
  lemma AroundProceeds(c: Chain, name: Name, procs: Procs, methods: map<Name, Code>, args: seq<Value>, blk: Option<Effect>)
    requires forall i :: 0 <= i < |c.before| ==> Approves(c.before[i], procs, methods)
    requires var k := AsEffect(RunCode(c.original, args, blk));
      && (forall i :: 0 <= i < |c.around| ==> Completes(c.around[i], procs, methods, [], Some(k)))
      && (exists i :: 0 <= i < |c.around| && Yields(c.around[i], procs, methods, k))
    requires var o := RunCode(c.original, args, blk);
      o.out.Returned? ==> forall i :: 0 <= i < |c.after| ==> Completes(c.after[i], procs, methods, [o.out.v], None)
    ensures var o := RunCode(c.original, args, blk);
      var k := AsEffect(o);
      var e := Invoke(c, name, procs, methods, args, blk);
      && o.out.Returned?
      && e.trace == Traces(c.before, procs, methods, [], None) + Traces(c.around, procs, methods, [], Some(k))
                    + Traces(c.after, procs, methods, [o.out.v], None)
      && e.out == o.out
  {
    var o := RunCode(c.original, args, blk);
    var k := AsEffect(o);
    var j :| 0 <= j < |c.around| && Yields(c.around[j], procs, methods, k);
    YieldedReturned(c.around[j], procs, methods, k);
    ApprovedBefores(c.before, procs, methods);
    AroundsAllRun(c.around, procs, methods, k);
    AftersAllRun(c.after, procs, methods, o.out.v);
  }

  /**
    Short-circuit from an around advice: when the before advice approve, the
    first `j` around advice return normally and advice `j` throws the
    method's own name, the call returns the payload; later around advice and
    the after advice never run.
  */
  lemma AroundThrow(c: Chain, name: Name, procs: Procs, methods: map<Name, Code>, args: seq<Value>, blk: Option<Effect>, j: nat, payload: Value)
    requires forall i :: 0 <= i < |c.before| ==> Approves(c.before[i], procs, methods)
    requires j < |c.around|
    requires var k := AsEffect(RunCode(c.original, args, blk));
      && (forall i :: 0 <= i < j ==> Completes(c.around[i], procs, methods, [], Some(k)))
      && RunAdvice(c.around[j], procs, methods, [], Some(k)).out == Thrown(name, payload)
    ensures var k := AsEffect(RunCode(c.original, args, blk));
      var e := Invoke(c, name, procs, methods, args, blk);
      && e.out == Returned(payload)
      && e.trace == Traces(c.before, procs, methods, [], None) + Traces(c.around[..j + 1], procs, methods, [], Some(k))
  {
    var k := AsEffect(RunCode(c.original, args, blk));
    var pre := c.around[..j];
    forall i | 0 <= i < |pre| ensures Completes(pre[i], procs, methods, [], Some(k)) {
      assert pre[i] == c.around[i];
    }
    AroundsAllRun(pre, procs, methods, k);
    assert c.around[..j + 1][..j] == pre;
    AroundsStopped(c.around, procs, methods, k, j + 1);
    ApprovedBefores(c.before, procs, methods);
  }

  /** What the middle of a call logs when it reaches the after advice. */
  function RoundTrace(c: Chain, procs: Procs, methods: map<Name, Code>, k: Effect): seq<Value> {
    if c.around == [] then k.trace else Traces(c.around, procs, methods, [], Some(k))
  }

  /**
    Short-circuit from an after advice: when the call reaches the after
    advice (the before advice approve; there is no around advice, or they
    all return normally and one calls its continuation), the original
    returns a value, the first `j` after advice return normally and advice
    `j` throws the method's own name, the call returns the payload; later
    after advice never run.
  */
  lemma AfterThrow(c: Chain, name: Name, procs: Procs, methods: map<Name, Code>, args: seq<Value>, blk: Option<Effect>, j: nat, payload: Value)
    requires forall i :: 0 <= i < |c.before| ==> Approves(c.before[i], procs, methods)
    requires var k := AsEffect(RunCode(c.original, args, blk));
      c.around != [] ==>
        && (forall i :: 0 <= i < |c.around| ==> Completes(c.around[i], procs, methods, [], Some(k)))
        && (exists i :: 0 <= i < |c.around| && Yields(c.around[i], procs, methods, k))
    requires RunCode(c.original, args, blk).out.Returned?
    requires j < |c.after|
    requires var v := RunCode(c.original, args, blk).out.v;
      && (forall i :: 0 <= i < j ==> Completes(c.after[i], procs, methods, [v], None))
      && RunAdvice(c.after[j], procs, methods, [v], None).out == Thrown(name, payload)
    ensures var o := RunCode(c.original, args, blk);
      var k := AsEffect(o);
      var e := Invoke(c, name, procs, methods, args, blk);
      && e.out == Returned(payload)
      && e.trace == Traces(c.before, procs, methods, [], None) + RoundTrace(c, procs, methods, k)
                    + Traces(c.after[..j + 1], procs, methods, [o.out.v], None)
  {
    var o := RunCode(c.original, args, blk);
    var k := AsEffect(o);
    var v := o.out.v;
    ApprovedBefores(c.before, procs, methods);
    if c.around != [] {
      AroundsAllRun(c.around, procs, methods, k);
    }
    var pre := c.after[..j];
    forall i | 0 <= i < |pre| ensures Completes(pre[i], procs, methods, [v], None) {
      assert pre[i] == c.after[i];
    }
    AftersAllRun(pre, procs, methods, v);
    assert c.after[..j + 1][..j] == pre;
    AftersStopped(c.after, procs, methods, v, j + 1);
  }

  /**
    Pristine bypass: the same result as running the original directly, for
    any advice lists; a name without a chain raises NoMethodError.
  */
  lemma PristineBypasses(chains: map<Name, Chain>, name: Name, c: Chain, args: seq<Value>, blk: Option<Effect>)
    requires name in chains && chains[name].original == c.original
    ensures Pristine(chains, name, args, blk) == Pristine(chains[name := c], name, args, blk)
    ensures Pristine(chains, name, args, blk) == AsEffect(RunCode(c.original, args, blk))
    ensures Pristine(chains - {name}, name, args, blk) == Effect([], Raised(NoMethodError))
  {
  }

  /**
    Calling the `_without_callbacks` alias of an advised method on its
    class runs the original and no advice, unless the class has advised the
    alias name itself.
  */
  lemma AliasIsPristine(f: Frame, rest: seq<Frame>, methods: map<Name, Code>, m: Name, procs: Procs, args: seq<Value>, blk: Option<Effect>)
    requires m in f.chains && WithoutCallbacks(m) !in f.chains
    ensures Lookup([f] + rest, methods, WithoutCallbacks(m), procs, args, blk) == Pristine(f.chains, m, args, blk)
  {
    AliasRoundTrip(m);
  }

  /**
    Subclass behaviour: classes below the advised one that do not answer the
    name themselves leave the call exactly as the advised class makes it.
  */
  lemma {:induction false} InheritedDispatch(between: seq<Frame>, rest: seq<Frame>, methods: map<Name, Code>, name: Name, procs: Procs, args: seq<Value>, blk: Option<Effect>)
    requires forall i :: 0 <= i < |between| ==> !Answers(between[i], name)
    ensures Lookup(between + rest, methods, name, procs, args, blk) == Lookup(rest, methods, name, procs, args, blk)
    decreases |between|
  {
    if between != [] {
      assert (between + rest)[0] == between[0];
      assert (between + rest)[1..] == between[1..] + rest;
      InheritedDispatch(between[1..], rest, methods, name, procs, args, blk);
    } else {
      assert between + rest == rest;
    }
  }

  /**
    On an instance of the class itself, a call of an advised name goes
    through its dispatcher, an alias runs the pristine original, any other
    method runs as defined, and an unknown name raises NoMethodError.
  */
  lemma SendOwnClass(f: Frame, name: Name, procs: Procs, args: seq<Value>, blk: Option<Effect>)
    ensures var e := Send([f], name, procs, args, blk);
      && (name in f.chains ==> e == Invoke(f.chains[name], name, procs, f.methods, args, blk))
      && (name !in f.chains && IsAliasIn(f, name) ==> e == Pristine(f.chains, AliasedName(name).value, args, blk))
      && (name !in f.chains && !IsAliasIn(f, name) && name in f.methods ==> e == AsEffect(RunCode(f.methods[name], args, blk)))
      && (!Answers(f, name) ==> e == Effect([], Raised(NoMethodError)))
  {
    assert [f][0] == f && [f][1..] == [];
    assert Visible([f]) == f.methods by {
      assert Visible([f]) == map[] + f.methods;
    }
    if !Answers(f, name) {
      assert Send([f], name, procs, args, blk) == Lookup([], f.methods, name, procs, args, blk);
    }
  }

  /** Classes that define nothing do not change what an instance sees. */
  lemma {:induction false} VisibleThroughEmpty(between: seq<Frame>, rest: seq<Frame>)
    requires forall i :: 0 <= i < |between| ==> between[i].methods == map[]
    ensures Visible(between + rest) == Visible(rest)
    decreases |between|
  {
    if between != [] {
      assert (between + rest)[1..] == between[1..] + rest;
      VisibleThroughEmpty(between[1..], rest);
      assert Visible(between + rest) == Visible(rest) + map[];
    } else {
      assert between + rest == rest;
    }
  }

  /**
    Instances of subclasses, at any depth, that define nothing of their own
    get the advised class's behaviour.
  */
  lemma SubclassSend(between: seq<Frame>, f: Frame, name: Name, procs: Procs, args: seq<Value>, blk: Option<Effect>)
    requires forall i :: 0 <= i < |between| ==> between[i] == Frame(map[], map[])
    ensures Send(between + [f], name, procs, args, blk) == Send([f], name, procs, args, blk)
  {
    VisibleThroughEmpty(between, [f]);
    InheritedDispatch(between, [f], Visible([f]), name, procs, args, blk);
  }
}
