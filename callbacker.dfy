/**
  `Aspectory::Callbacker`, the advice registry of one class, as its spec
  (`spec/callbacker_spec.rb`) fixes it: `before`, `after` and `around`
  add advice to the method's chain and install the dispatcher the first
  time a method gets advice; calling a method on an instance goes through
  the dispatcher, the `_without_callbacks` alias or the plain method.

  The class's own method table is fixed (`methods`); installing a
  dispatcher is recorded in `installs`, the log of `redefine_method`
  calls.  Registration is specified by the pure `Registered` on the
  registry's state, and a call by `Chains.Send`.
*/
module Aspectory {
  import opened Wrappers
  import opened Lists
  import opened MethodNames
  import opened Chains

  /** The registry's state: the chains, and the names whose dispatcher was installed, in order. */
  datatype Registry = Registry(chains: map<Name, Chain>, installs: seq<Name>)

  /**
    Every advised method is installed exactly once and its chain wraps the
    class's own body of that name; no advice list holds a duplicate.
  */
  ghost predicate WellFormed(g: Registry, methods: map<Name, Code>) {
    && NoDuplicates(g.installs)
    && (forall n :: n in g.chains <==> n in g.installs)
    && (forall n :: n in g.chains ==> n in methods && g.chains[n].original == methods[n] && DistinctLists(g.chains[n]))
  }

  /** The chain of `name`: the existing one, or a fresh empty one around the method's body. */
  function ChainOf(g: Registry, methods: map<Name, Code>, name: Name): (c: Chain)
    requires name in g.chains || name in methods
    ensures name !in g.chains ==> c == Chain(methods[name], [], [], [])
    ensures WellFormed(g, methods) ==> name in methods && c.original == methods[name] && DistinctLists(c)
  {
    if name in g.chains then g.chains[name] else Chain(methods[name], [], [], [])
  }

  /**
    One registration: the advice `xs` go to the end of the list at `p`
    (skipping those already there); the first registration for a name
    installs its dispatcher.  For a name the class does not define, this
    model chooses to refuse the registration with NameError and to change
    nothing; no example registers such a name.
  */
  function Registered(g: Registry, methods: map<Name, Code>, p: Position, name: Name, xs: seq<Advice>): Registry {
    if name !in methods then g
    else
      Registry(g.chains[name := Extend(ChainOf(g, methods, name), p, xs)],
               if name in g.chains then g.installs else g.installs + [name])
  }

  /** Registration keeps the registry well formed. */
  lemma RegisteredWellFormed(g: Registry, methods: map<Name, Code>, p: Position, name: Name, xs: seq<Advice>)
    requires WellFormed(g, methods)
    ensures WellFormed(Registered(g, methods, p, name, xs), methods)
  {
    if name in methods {
      var c := ChainOf(g, methods, name);
      ExtendKeeps(c, p, xs);
      var g' := Registered(g, methods, p, name, xs);
      if name !in g.chains {
        AppendFresh(g.installs, name);
      }
      assert g'.chains == g.chains[name := Extend(c, p, xs)];
      forall n | n in g'.chains
        ensures n in methods && g'.chains[n].original == methods[n] && DistinctLists(g'.chains[n])
      {
        if n != name {
          assert g'.chains[n] == g.chains[n];
        }
      }
    }
  }

  /** Appending a name not yet in a duplicate-free log keeps it duplicate-free. */
  lemma AppendFresh(s: seq<Name>, x: Name)
    requires NoDuplicates(s) && x !in s
    ensures NoDuplicates(s + [x])
  {
    var t := s + [x];
    forall i, j | 0 <= i < j < |t| ensures t[i] != t[j] {
      if j == |t| - 1 {
        assert t[i] == s[i];
      }
    }
  }

  /**
    Registering the same advice twice at the same position leaves the
    registry as one registration does: no advice runs twice and the
    dispatcher is installed once.
  */
  lemma RegisteredIdempotent(g: Registry, methods: map<Name, Code>, p: Position, name: Name, xs: seq<Advice>)
    ensures var once := Registered(g, methods, p, name, xs);
      Registered(once, methods, p, name, xs) == once
  {
    if name in methods {
      ExtendIdempotent(ChainOf(g, methods, name), p, xs);
    }
  }

  /** A run of registrations for one name, each with its position and advice. */
  function RegisteredAll(g: Registry, methods: map<Name, Code>, name: Name, regs: seq<(Position, seq<Advice>)>): Registry
    decreases |regs|
  {
    if regs == [] then g
    else RegisteredAll(Registered(g, methods, regs[0].0, name, regs[0].1), methods, name, regs[1..])
  }

  /**
    Install once: however many registrations a defined method gets, its
    dispatcher is installed exactly once, by the first of them, and no other
    name is installed.
  */
  lemma {:induction false} InstallsOnce(g: Registry, methods: map<Name, Code>, name: Name, regs: seq<(Position, seq<Advice>)>)
    requires name in methods && regs != []
    ensures RegisteredAll(g, methods, name, regs).installs == if name in g.chains then g.installs else g.installs + [name]
    ensures name in RegisteredAll(g, methods, name, regs).chains
    decreases |regs|
  {
    var g1 := Registered(g, methods, regs[0].0, name, regs[0].1);
    if |regs| > 1 {
      InstallsOnce(g1, methods, name, regs[1..]);
    }
  }

  /** The advice one registration adds: the symbols in order, then the block. */
  function Advices(symbols: seq<Name>, block: Option<BlockId>): (r: seq<Advice>)
    ensures |r| == |symbols| + (if block.Some? then 1 else 0)
    ensures forall i :: 0 <= i < |symbols| ==> r[i] == Named(symbols[i])
    ensures block.Some? ==> r[|r| - 1] == Block(block.value)
    decreases |symbols|
  {
    if symbols == [] then (if block.Some? then [Block(block.value)] else [])
    else [Named(symbols[0])] + Advices(symbols[1..], block)
  }

  class Callbacker {
    /** The instance methods the class defines. */
    const methods: map<Name, Code>
    /** The advice chains of the advised methods. */
    var chains: map<Name, Chain>
    /** `redefine_method`'s log: every dispatcher installation, in order. */
    var installs: seq<Name>

    ghost predicate Valid()
      reads this
    {
      WellFormed(Registry(chains, installs), methods)
    }

    constructor (methods: map<Name, Code>)
      ensures Valid()
      ensures this.methods == methods && chains == map[] && installs == []
    {
      this.methods := methods;
      chains := map[];
      installs := [];
    }

    /**
      `before`/`after`/`around`: adds the named methods, then the block, to
      the list at `p`.  The result says whether this call installed the
      dispatcher; a name the class does not define gets the model's
      NameError refusal, as in `Registered`.
    */
    method Register(p: Position, name: Name, symbols: seq<Name>, block: Option<BlockId>) returns (r: Result<bool, Error>)
      requires Valid()
      modifies this
      ensures Valid()
      ensures Registry(chains, installs) == Registered(old(Registry(chains, installs)), methods, p, name, Advices(symbols, block))
      ensures r == if name in methods then Success(name !in old(chains)) else Failure(NameError)
    {
      var g := Registry(chains, installs);
      var xs := Advices(symbols, block);
      RegisteredWellFormed(g, methods, p, name, xs);
      if name !in methods {
        return Failure(NameError);
      }
      var installing := name !in chains;
      var c := ChainOf(g, methods, name);
      if installing {
        installs := installs + [name];
      }
      chains := chains[name := Extend(c, p, xs)];
      r := Success(installing);
    }

    method Before(name: Name, symbols: seq<Name>, block: Option<BlockId>) returns (r: Result<bool, Error>)
      requires Valid()
      modifies this
      ensures Valid()
      ensures Registry(chains, installs) == Registered(old(Registry(chains, installs)), methods, BeforePos, name, Advices(symbols, block))
      ensures r == if name in methods then Success(name !in old(chains)) else Failure(NameError)
    {
      r := Register(BeforePos, name, symbols, block);
    }

    method After(name: Name, symbols: seq<Name>, block: Option<BlockId>) returns (r: Result<bool, Error>)
      requires Valid()
      modifies this
      ensures Valid()
      ensures Registry(chains, installs) == Registered(old(Registry(chains, installs)), methods, AfterPos, name, Advices(symbols, block))
      ensures r == if name in methods then Success(name !in old(chains)) else Failure(NameError)
    {
      r := Register(AfterPos, name, symbols, block);
    }

    method Around(name: Name, symbols: seq<Name>, block: Option<BlockId>) returns (r: Result<bool, Error>)
      requires Valid()
      modifies this
      ensures Valid()
      ensures Registry(chains, installs) == Registered(old(Registry(chains, installs)), methods, AroundPos, name, Advices(symbols, block))
      ensures r == if name in methods then Success(name !in old(chains)) else Failure(NameError)
    {
      r := Register(AroundPos, name, symbols, block);
    }

    /** Runs the before advice one by one, stopping at a throw or an error. */
    method RunBefores(bs: seq<Advice>, procs: Procs) returns (s: BeforeStage)
      ensures s == Befores(bs, procs, methods)
    {
      s := BeforeStage([], None, None);
      var i := 0;
      while i < |bs|
        invariant 0 <= i <= |bs|
        invariant s == Befores(bs[..i], procs, methods)
        invariant s.stop.None?
      {
        assert bs[..i + 1][..i] == bs[..i];
        var r := RunAdvice(bs[i], procs, methods, [], None);
        s := BeforeStep(s, r);
        i := i + 1;
        if s.stop.Some? {
          BeforesStopped(bs, procs, methods, i);
          return;
        }
      }
      assert bs[..i] == bs;
    }

    /** Runs the around advice one by one with continuation `k`, stopping at a throw or an error. */
    method RunArounds(arounds: seq<Advice>, procs: Procs, k: Effect) returns (s: AroundStage)
      ensures s == Arounds(arounds, procs, methods, k)
    {
      s := AroundStage([], false, Nil, None);
      var i := 0;
      while i < |arounds|
        invariant 0 <= i <= |arounds|
        invariant s == Arounds(arounds[..i], procs, methods, k)
        invariant s.stop.None?
      {
        assert arounds[..i + 1][..i] == arounds[..i];
        var r := RunAdvice(arounds[i], procs, methods, [], Some(k));
        s := AroundStep(s, r);
        i := i + 1;
        if s.stop.Some? {
          AroundsStopped(arounds, procs, methods, k, i);
          return;
        }
      }
      assert arounds[..i] == arounds;
    }

    /** Runs the after advice one by one on `result`, stopping at a throw or an error. */
    method RunAfters(afters: seq<Advice>, procs: Procs, result: Value) returns (s: AfterStage)
      ensures s == Afters(afters, procs, methods, result)
    {
      s := AfterStage([], None);
      var i := 0;
      while i < |afters|
        invariant 0 <= i <= |afters|
        invariant s == Afters(afters[..i], procs, methods, result)
        invariant s.stop.None?
      {
        assert afters[..i + 1][..i] == afters[..i];
        var r := RunAdvice(afters[i], procs, methods, [result], None);
        s := AfterStep(s, r);
        i := i + 1;
        if s.stop.Some? {
          AftersStopped(afters, procs, methods, result, i);
          return;
        }
      }
      assert afters[..i] == afters;
    }

    /** The dispatcher of an advised method: the stages, inside `catch(name)`. */
    method Dispatch(c: Chain, name: Name, procs: Procs, args: seq<Value>, blk: Option<Effect>) returns (e: Effect)
      ensures e == Invoke(c, name, procs, methods, args, blk)
    {
      var b := RunBefores(c.before, procs);
      if b.stop.Some? {
        e := Effect(b.trace, b.stop.value);
      } else if b.veto.Some? {
        e := Effect(b.trace, Returned(b.veto.value));
      } else {
        var k := AsEffect(RunCode(c.original, args, blk));
        var m: Middle;
        if c.around == [] {
          m := Middle(k.trace, k.out, true);
        } else {
          var s := RunArounds(c.around, procs, k);
          if s.stop.Some? {
            m := Middle(s.trace, s.stop.value, false);
          } else if s.proceeded {
            m := Middle(s.trace, k.out, true);
          } else {
            m := Middle(s.trace, Returned(s.last), false);
          }
        }
        if !m.out.Returned? || !m.proceed {
          e := Effect(b.trace + m.trace, m.out);
        } else {
          var a := RunAfters(c.after, procs, m.out.v);
          e := Effect(b.trace + m.trace + a.trace, if a.stop.Some? then a.stop.value else m.out);
        }
      }
      e := Catch(name, e);
    }

    /** Calls `name` on an instance of the class: dispatcher, alias, plain method or NoMethodError. */
    method Call(name: Name, procs: Procs, args: seq<Value>, blk: Option<Effect>) returns (e: Effect)
      ensures e == Send([Frame(methods, chains)], name, procs, args, blk)
    {
      var f := Frame(methods, chains);
      SendOwnClass(f, name, procs, args, blk);
      if name in chains {
        e := Dispatch(chains[name], name, procs, args, blk);
      } else if IsAliasIn(f, name) {
        e := PristineCall(AliasedName(name).value, args, blk);
      } else if name in methods {
        e := AsEffect(RunCode(methods[name], args, blk));
      } else {
        e := Effect([], Raised(NoMethodError));
      }
    }

    /** `__PRISTINE__`: the original of an advised method, with no advice. */
    method PristineCall(name: Name, args: seq<Value>, blk: Option<Effect>) returns (e: Effect)
      ensures e == Pristine(chains, name, args, blk)
    {
      if name in chains {
        e := AsEffect(RunCode(chains[name].original, args, blk));
      } else {
        e := Effect([], Raised(NoMethodError));
      }
    }
  }
}
