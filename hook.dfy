/**
  The per-class façade of `lib/booty_call/hook.rb`.  Including the hook
  gives a class its own advice registry and its own definition watcher;
  `before` and `after` go to the registry at once when the method is
  already defined, and are otherwise queued with the watcher as a reaction
  that re-issues the same call once the method appears.

  The registry is abstract here: `registry` is the log of the calls it has
  received, in order.
*/
module BootyCall {
  import opened Wrappers
  import opened Lists
  import opened MethodNames
  import GotYoBack

  type BlockId = nat

  datatype Position = Before | After

  /** One `before`/`after` declaration: the position, the method, its extra arguments and block. */
  datatype Declaration = Declaration(position: Position, name: Name, args: seq<Name>, block: Option<BlockId>)

  /**
    What the watcher holds for a hooked class: a user's own `observe` block,
    or the proc that `callback` creates to re-issue a declaration.  Every
    such proc is a new object, told apart by its serial number.
  */
  datatype Reaction = UserBlock(id: BlockId) | Replay(serial: nat, decl: Declaration)

  /** The declarations that the replays among `rs` re-issue, in order. */
  function Replays(rs: seq<Reaction>): (ds: seq<Declaration>)
    ensures |ds| <= |rs|
  {
    if rs == [] then []
    else (if rs[0].Replay? then [rs[0].decl] else []) + Replays(rs[1..])
  }

  /** The user blocks among `rs`, in order. */
  function UserBlocks(rs: seq<Reaction>): (ids: seq<BlockId>)
    ensures |ids| <= |rs|
  {
    if rs == [] then []
    else (if rs[0].UserBlock? then [rs[0].id] else []) + UserBlocks(rs[1..])
  }

  lemma ReplaysAppend(rs: seq<Reaction>, r: Reaction)
    ensures Replays(rs + [r]) == Replays(rs) + (if r.Replay? then [r.decl] else [])
    ensures UserBlocks(rs + [r]) == UserBlocks(rs) + (if r.UserBlock? then [r.id] else [])
  {
    if rs != [] {
      assert (rs + [r])[1..] == rs[1..] + [r];
      ReplaysAppend(rs[1..], r);
    }
  }

  class HookedClass {
    /** `@introspector`, created for this class alone. */
    const introspector: GotYoBack.Introspector<Reaction>
    /** The methods every object has; `defined_methods` leaves them out. */
    const objectMethods: set<Name>
    /** The class's instance methods. */
    var instanceMethods: set<Name>
    /** The calls `@callbacker` has received, in order. */
    var registry: seq<Declaration>
    /** The user blocks fired by method definitions, in order. */
    var userFired: seq<BlockId>
    /** The serial number of the next replay proc. */
    var serial: nat

    ghost predicate Valid()
      reads this, introspector
    {
      && introspector.Valid()
      && forall n, r :: n in introspector.observed && r in introspector.observed[n] && r.Replay? ==>
           r.serial < serial && r.decl.name == n
    }

    /** `Hook.included`: the class gets a fresh watcher and an empty registry. */
    constructor (klass: GotYoBack.ClassId, instanceMethods: set<Name>, objectMethods: set<Name>)
      ensures Valid() && fresh(introspector)
      ensures introspector.klass == klass && introspector.observed == map[]
      ensures this.instanceMethods == instanceMethods && this.objectMethods == objectMethods
      ensures registry == [] && userFired == [] && serial == 0
    {
      introspector := new GotYoBack.Introspector<Reaction>(klass);
      this.instanceMethods := instanceMethods;
      this.objectMethods := objectMethods;
      registry := [];
      userFired := [];
      serial := 0;
    }

    /** Whether a declaration for `name` goes to the registry at once. */
    predicate IsDefined(name: Name)
      reads this
    {
      name in GotYoBack.DefinedMethods(instanceMethods, objectMethods)
    }

    /**
      `callback`: a defined method gets the registry call now and nothing is
      queued; an undefined one leaves the registry alone and gets exactly one
      new reaction queued under its name.
    */
    method Callback(position: Position, name: Name, args: seq<Name>, block: Option<BlockId>)
      requires Valid()
      modifies this, introspector
      ensures Valid()
      ensures var d := Declaration(position, name, args, block);
        if old(IsDefined(name)) then
          && registry == old(registry) + [d]
          && introspector.observed == old(introspector.observed)
        else
          && registry == old(registry)
          && introspector.observed ==
               old(introspector.observed)[name := GotYoBack.Pending(old(introspector.observed), name) + [Replay(old(serial), d)]]
      ensures instanceMethods == old(instanceMethods) && userFired == old(userFired)
      ensures serial >= old(serial)
      ensures !old(IsDefined(name)) ==> introspector.subscribed
    {
      var d := Declaration(position, name, args, block);
      if IsDefined(name) {
        registry := registry + [d];
      } else {
        var r := Replay(serial, d);
        assert r !in GotYoBack.Pending(introspector.observed, name);
        var _ := introspector.Observe(name, Some(r));
        serial := serial + 1;
      }
    }

    /** `before(m, ...)` is `callback(:before, m, ...)`. */
    method Before(name: Name, args: seq<Name>, block: Option<BlockId>)
      requires Valid()
      modifies this, introspector
      ensures Valid()
      ensures var d := Declaration(Position.Before, name, args, block);
        if old(IsDefined(name)) then
          registry == old(registry) + [d] && introspector.observed == old(introspector.observed)
        else
          && registry == old(registry)
          && introspector.observed ==
               old(introspector.observed)[name := GotYoBack.Pending(old(introspector.observed), name) + [Replay(old(serial), d)]]
      ensures instanceMethods == old(instanceMethods) && userFired == old(userFired)
    {
      Callback(Position.Before, name, args, block);
    }

    /** `after(m, ...)` is `callback(:after, m, ...)`. */
    method After(name: Name, args: seq<Name>, block: Option<BlockId>)
      requires Valid()
      modifies this, introspector
      ensures Valid()
      ensures var d := Declaration(Position.After, name, args, block);
        if old(IsDefined(name)) then
          registry == old(registry) + [d] && introspector.observed == old(introspector.observed)
        else
          && registry == old(registry)
          && introspector.observed ==
               old(introspector.observed)[name := GotYoBack.Pending(old(introspector.observed), name) + [Replay(old(serial), d)]]
      ensures instanceMethods == old(instanceMethods) && userFired == old(userFired)
    {
      Callback(Position.After, name, args, block);
    }

    /** `observe(m, &block)` forwards the name and block to this class's own watcher. */
    method Observe(name: Name, block: Option<BlockId>) returns (list: seq<Reaction>)
      requires Valid()
      modifies introspector
      ensures Valid()
      ensures var r := if block.Some? then Some(UserBlock(block.value)) else None;
        var before := GotYoBack.Pending(old(introspector.observed), name);
        && list == (if r.Some? && r.value !in before then before + [r.value] else before)
        && introspector.observed == old(introspector.observed)[name := list]
      ensures introspector.subscribed
    {
      var r := if block.Some? then Some(UserBlock(block.value)) else None;
      list := introspector.Observe(name, r);
    }

    /**
      The class defines `name`; its `method_added` event runs the watcher's
      `check_method`.  User blocks in `failing` raise, which stops the
      remaining reactions for `name`.  Each replay fired re-issues its
      declaration, which now takes the direct branch unless `name` is one of
      the methods every object has.  `check_method` runs through the hook
      that `observe_klass!` installs; the watcher's `Valid` says that any
      pending entry means the hook is in place, and without an entry
      `check_method` fires nothing.
    */
    method MethodAdded(name: Name, failing: set<BlockId>)
      requires Valid()
      modifies this, introspector
      ensures Valid()
      ensures instanceMethods == old(instanceMethods) + {name}
      ensures var fired := GotYoBack.Fired(GotYoBack.Pending(old(introspector.observed), name), Fails(failing));
        && userFired == old(userFired) + UserBlocks(fired)
        && (name !in objectMethods ==>
             && registry == old(registry) + Replays(fired)
             && introspector.observed == old(introspector.observed) - {name})
        && (name in objectMethods ==>
             && registry == old(registry)
             && introspector.observed - {name} == old(introspector.observed) - {name}
             && Replays(GotYoBack.Pending(introspector.observed, name)) == Replays(fired)
             && (Replays(fired) != [] ==> introspector.Observing(name)))
    {
      instanceMethods := instanceMethods + {name};
      ghost var pending := GotYoBack.Pending(introspector.observed, name);
      assert forall r :: r in pending && r.Replay? ==> r.decl.name == name;
      var fired := introspector.CheckMethod(name, Fails(failing));
      if name in objectMethods {
        ghost var m := introspector.observed;
        RequeueFired(name, fired);
        RequeuedFromNone(old(introspector.observed), m, introspector.observed, name, Replays(fired));
      } else {
        RegisterFired(name, fired);
      }
    }

    /**
      Runs the fired reactions of a method the class now defines, in order:
      the replays' declarations reach the registry.
    */
    method RegisterFired(name: Name, fired: seq<Reaction>)
      requires Valid()
      requires name in instanceMethods && name !in objectMethods
      requires forall r :: r in fired && r.Replay? ==> r.decl.name == name
      modifies this, introspector
      ensures Valid()
      ensures instanceMethods == old(instanceMethods)
      ensures userFired == old(userFired) + UserBlocks(fired)
      ensures registry == old(registry) + Replays(fired)
      ensures introspector.observed == old(introspector.observed)
      decreases |fired|
    {
      if fired != [] {
        ghost var g0, u0 := registry, userFired;
        ghost var ds, us := if fired[0].Replay? then [fired[0].decl] else [], if fired[0].UserBlock? then [fired[0].id] else [];
        assert Replays(fired) == ds + Replays(fired[1..]) && UserBlocks(fired) == us + UserBlocks(fired[1..]);
        PerformRegister(name, fired[0]);
        RegisterFired(name, fired[1..]);
        assert registry == (g0 + ds) + Replays(fired[1..]) == g0 + Replays(fired);
        assert userFired == (u0 + us) + UserBlocks(fired[1..]) == u0 + UserBlocks(fired);
      }
    }

    /**
      Runs the fired reactions of a method every object has, in order: the
      replays' declarations are queued again under its name, and nothing
      reaches the registry.
    */
    method RequeueFired(name: Name, fired: seq<Reaction>)
      requires Valid()
      requires name in instanceMethods && name in objectMethods
      requires forall r :: r in fired && r.Replay? ==> r.decl.name == name
      modifies this, introspector
      ensures Valid()
      ensures instanceMethods == old(instanceMethods)
      ensures userFired == old(userFired) + UserBlocks(fired)
      ensures registry == old(registry)
      ensures Requeued(old(introspector.observed), introspector.observed, name, Replays(fired))
      decreases |fired|
    {
      if fired == [] {
        assert Replays(GotYoBack.Pending(introspector.observed, name)) + [] == Replays(GotYoBack.Pending(introspector.observed, name));
      } else {
        ghost var m0, u0 := introspector.observed, userFired;
        ghost var ds, us := if fired[0].Replay? then [fired[0].decl] else [], if fired[0].UserBlock? then [fired[0].id] else [];
        assert Replays(fired) == ds + Replays(fired[1..]) && UserBlocks(fired) == us + UserBlocks(fired[1..]);
        PerformRequeue(name, fired[0]);
        ghost var m1 := introspector.observed;
        RequeueFired(name, fired[1..]);
        RequeuedTrans(m0, m1, introspector.observed, name, ds, Replays(fired[1..]));
        assert userFired == (u0 + us) + UserBlocks(fired[1..]) == u0 + UserBlocks(fired);
      }
    }

    /** `Perform` for a method the class now defines: a replay's declaration reaches the registry. */
    method PerformRegister(name: Name, r: Reaction)
      requires Valid()
      requires name in instanceMethods && name !in objectMethods
      requires r.Replay? ==> r.decl.name == name
      modifies this, introspector
      ensures Valid()
      ensures instanceMethods == old(instanceMethods)
      ensures userFired == old(userFired) + (if r.UserBlock? then [r.id] else [])
      ensures registry == old(registry) + (if r.Replay? then [r.decl] else [])
      ensures introspector.observed == old(introspector.observed)
    {
      Perform(name, r);
    }

    /** `Perform` for a method every object has, stated as a requeue. */
    method PerformRequeue(name: Name, r: Reaction)
      requires Valid()
      requires name in instanceMethods && name in objectMethods
      requires r.Replay? ==> r.decl.name == name
      modifies this, introspector
      ensures Valid()
      ensures instanceMethods == old(instanceMethods)
      ensures userFired == old(userFired) + (if r.UserBlock? then [r.id] else [])
      ensures registry == old(registry)
      ensures Requeued(old(introspector.observed), introspector.observed, name, if r.Replay? then [r.decl] else [])
    {
      ghost var s := serial;
      Perform(name, r);
      Requeue(old(introspector.observed), name, r, s, introspector.observed);
    }

    /** Runs one fired reaction of `name`: a replay re-issues its declaration. */
    method Perform(name: Name, r: Reaction)
      requires Valid()
      requires name in instanceMethods
      requires r.Replay? ==> r.decl.name == name
      modifies this, introspector
      ensures Valid()
      ensures instanceMethods == old(instanceMethods)
      ensures userFired == old(userFired) + (if r.UserBlock? then [r.id] else [])
      ensures name !in objectMethods ==>
        && registry == old(registry) + (if r.Replay? then [r.decl] else [])
        && introspector.observed == old(introspector.observed)
      ensures name in objectMethods ==>
        && registry == old(registry)
        && introspector.observed ==
             if r.Replay? then
               old(introspector.observed)[name := GotYoBack.Pending(old(introspector.observed), name) + [Replay(old(serial), r.decl)]]
             else old(introspector.observed)
    {
      match r {
        case UserBlock(id) =>
          userFired := userFired + [id];
        case Replay(_, d) =>
          Callback(d.position, d.name, d.args, d.block);
      }
    }
  }

  /**
    `m` is `m0` with the declarations `ds` queued again, in order, under
    `name`: the replays under `name` gain exactly `ds`, and no other entry
    changes.
  */
  ghost predicate Requeued(m0: map<Name, seq<Reaction>>, m: map<Name, seq<Reaction>>, name: Name, ds: seq<Declaration>) {
    && m - {name} == m0 - {name}
    && Replays(GotYoBack.Pending(m, name)) == Replays(GotYoBack.Pending(m0, name)) + ds
    && (ds != [] ==> name in m)
  }

  /** One reaction performed for a method every object has: a replay queues its declaration again. */
  lemma Requeue(m: map<Name, seq<Reaction>>, name: Name, r: Reaction, s: nat, m': map<Name, seq<Reaction>>)
    requires m' == if r.Replay? then m[name := GotYoBack.Pending(m, name) + [Replay(s, r.decl)]] else m
    ensures Requeued(m, m', name, if r.Replay? then [r.decl] else [])
  {
    if r.Replay? {
      ReplaysAppend(GotYoBack.Pending(m, name), Replay(s, r.decl));
      assert m' - {name} == m - {name};
    } else {
      assert Replays(GotYoBack.Pending(m, name)) + [] == Replays(GotYoBack.Pending(m, name));
    }
  }

  /** Requeueing `ds` onto a map without an entry for `name` leaves exactly `ds` under it. */
  lemma RequeuedFromNone(m0: map<Name, seq<Reaction>>, m1: map<Name, seq<Reaction>>, m2: map<Name, seq<Reaction>>, name: Name, ds: seq<Declaration>)
    requires m1 == m0 - {name} && Requeued(m1, m2, name, ds)
    ensures m2 - {name} == m0 - {name}
    ensures Replays(GotYoBack.Pending(m2, name)) == ds
    ensures ds != [] ==> name in m2
  {
    assert m1 - {name} == m0 - {name};
    assert GotYoBack.Pending(m1, name) == [];
  }

  /** Requeueing `ds1` and then `ds2` requeues `ds1 + ds2`. */
  lemma RequeuedTrans(m0: map<Name, seq<Reaction>>, m1: map<Name, seq<Reaction>>, m2: map<Name, seq<Reaction>>,
                      name: Name, ds1: seq<Declaration>, ds2: seq<Declaration>)
    requires Requeued(m0, m1, name, ds1) && Requeued(m1, m2, name, ds2)
    ensures Requeued(m0, m2, name, ds1 + ds2)
  {
    var p0, p2 := Replays(GotYoBack.Pending(m0, name)), Replays(GotYoBack.Pending(m2, name));
    assert p2 == p0 + (ds1 + ds2);
    if ds1 + ds2 != [] {
      assert p2 != [];
    }
  }

  /** The failure predicate for the watcher: only user blocks can raise. */
  function Fails(failing: set<BlockId>): Reaction -> bool {
    (r: Reaction) => r.UserBlock? && r.id in failing
  }

  /**
    Deferred wiring end to end: a declaration for a method the class does
    not define yet reaches the registry exactly once, when the method is
    defined, and a second definition does not repeat it.
  */
  method DeferredWiring(d: Declaration, objectMethods: set<Name>)
    returns (afterDeclare: seq<Declaration>, afterDefine: seq<Declaration>, afterRedefine: seq<Declaration>)
    requires d.name !in objectMethods
    ensures afterDeclare == [] && afterDefine == [d] && afterRedefine == [d]
  {
    var c := new HookedClass(0, objectMethods, objectMethods);
    c.Callback(d.position, d.name, d.args, d.block);
    afterDeclare := c.registry;
    c.MethodAdded(d.name, {});
    afterDefine := c.registry;
    c.MethodAdded(d.name, {});
    afterRedefine := c.registry;
  }

  /** A declaration for a method already defined reaches the registry at once and queues nothing. */
  method ImmediateWiring(d: Declaration, objectMethods: set<Name>)
    returns (log: seq<Declaration>, observing: bool)
    requires d.name !in objectMethods
    ensures log == [d] && !observing
  {
    var c := new HookedClass(0, objectMethods + {d.name}, objectMethods);
    c.Callback(d.position, d.name, d.args, d.block);
    log := c.registry;
    observing := c.introspector.Observing(d.name);
  }

  /** Two hooked classes do not share state: a declaration on one leaves the other untouched. */
  method SeparateClasses(d: Declaration, objectMethods: set<Name>)
    returns (pendingOther: map<Name, seq<Reaction>>, logOther: seq<Declaration>, pendingOwn: seq<Reaction>)
    requires d.name !in objectMethods
    ensures pendingOther == map[] && logOther == [] && pendingOwn == [Replay(0, d)]
  {
    var a := new HookedClass(0, objectMethods, objectMethods);
    var b := new HookedClass(1, objectMethods, objectMethods);
    a.Callback(d.position, d.name, d.args, d.block);
    pendingOther := b.introspector.observed;
    logOther := b.registry;
    pendingOwn := a.introspector.observed[d.name];
  }

  /**
    A method that every object has is never in `defined_methods`, so a
    declaration for it is re-queued each time the class defines it and never
    reaches the registry.
  */
  method ObjectMethodStaysDeferred(d: Declaration, objectMethods: set<Name>)
    returns (log: seq<Declaration>, observing: bool, requeued: seq<Declaration>)
    requires d.name in objectMethods
    ensures log == [] && observing && requeued == [d]
  {
    var c := new HookedClass(0, objectMethods, objectMethods);
    c.Callback(d.position, d.name, d.args, d.block);
    assert GotYoBack.Pending(c.introspector.observed, d.name) == [Replay(0, d)];
    c.MethodAdded(d.name, {});
    log := c.registry;
    observing := c.introspector.Observing(d.name);
    requeued := Replays(GotYoBack.Pending(c.introspector.observed, d.name));
  }
}
