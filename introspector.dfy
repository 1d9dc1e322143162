/**
  The definition watcher of `lib/got_yo_back/introspector.rb`: a table of
  one-shot reactions keyed by method name, fired and discarded the first
  time a method of that name is defined on the watched class.

  The class's `method_added` event is replaced by an explicit call of
  `CheckMethod`; subscribing to it is recorded by a counter, so that "at
  most once" can be stated.  Reactions are opaque values compared by
  identity (`==`), as Ruby's `uniq!` compares procs.
*/
module GotYoBack {
  import opened Wrappers
  import opened Lists
  import opened MethodNames

  type ClassId = nat

  /** The list pending for `name`, or the empty list when there is no entry. */
  function Pending<R>(observed: map<Name, seq<R>>, name: Name): seq<R> {
    if name in observed then observed[name] else []
  }

  /**
    The handlers that `check_method` actually calls: all of them in order,
    up to and including the first one that fails; the `rescue` swallows that
    failure and skips the rest.
  */
  function Fired<R>(hs: seq<R>, fails: R -> bool): (r: seq<R>)
    ensures |r| <= |hs| && r == hs[..|r|]
    ensures forall j :: 0 <= j < |r| - 1 ==> !fails(r[j])
    ensures r == hs || (|r| > 0 && fails(r[|r| - 1]))
    decreases |hs|
  {
    if hs == [] then []
    else if fails(hs[0]) then [hs[0]]
    else [hs[0]] + Fired(hs[1..], fails)
  }

  /** The contract of `Fired` pins it down: the prefix ending at the first failure. */
  lemma FiredUpToFailure<R>(hs: seq<R>, fails: R -> bool, i: nat)
    requires i < |hs| && fails(hs[i])
    requires forall j :: 0 <= j < i ==> !fails(hs[j])
    ensures Fired(hs, fails) == hs[..i + 1]
  {
  }

  /** With no failing handler every handler is called. */
  lemma FiredAll<R>(hs: seq<R>, fails: R -> bool)
    requires forall j :: 0 <= j < |hs| ==> !fails(hs[j])
    ensures Fired(hs, fails) == hs
  {
  }

  /**
    `defined_methods`: the class's instance methods minus those every object
    has.  Both sets are parameters: reflection is not modelled.
  */
  function DefinedMethods(instanceMethods: set<Name>, objectMethods: set<Name>): (r: set<Name>)
    ensures forall m :: m in r <==> m in instanceMethods && m !in objectMethods
  {
    instanceMethods - objectMethods
  }

  class Introspector<R(==)> {
    const klass: ClassId
    /** `@observed_methods`: the pending reactions per method name. */
    var observed: map<Name, seq<R>>
    /** `@observed`: the memo that the class's definition event is hooked. */
    var subscribed: bool
    /** How many times the definition event has been hooked on `klass`. */
    var subscriptions: nat

    ghost predicate Valid()
      reads this
    {
      && subscriptions == (if subscribed then 1 else 0)
      && (observed != map[] ==> subscribed)
      && forall m :: m in observed ==> NoDuplicates(observed[m])
    }

    constructor (klass: ClassId)
      ensures Valid()
      ensures this.klass == klass && observed == map[] && !subscribed && subscriptions == 0
    {
      this.klass := klass;
      observed := map[];
      subscribed := false;
      subscriptions := 0;
    }

    /** `observe_klass!`: hooks the definition event unless the memo says it is done. */
    method ObserveKlass() returns (r: bool)
      requires Valid()
      modifies this
      ensures Valid()
      ensures r && subscribed && subscriptions == 1
      ensures old(subscribed) ==> subscriptions == old(subscriptions)
      ensures observed == old(observed)
    {
      if !subscribed {
        subscriptions := subscriptions + 1;
        subscribed := true;
      }
      r := subscribed;
    }

    /** `observing?`: an entry exists, even an empty one (an empty Ruby array is truthy). */
    function Observing(name: Name): (b: bool)
      reads this
      ensures b <==> name in observed
    {
      name in observed
    }

    /**
      `observe`: hooks the class, makes sure an entry exists, appends the
      block when one is given, drops duplicates, and returns the list.
      Compacting is the identity here: a block is pushed only when given, so
      no slot ever holds nil.
    */
    method Observe(name: Name, block: Option<R>) returns (list: seq<R>)
      requires Valid()
      modifies this
      ensures Valid()
      ensures subscribed && subscriptions == 1
      ensures var before := Pending(old(observed), name);
        list == if block.Some? && block.value !in before then before + [block.value] else before
      ensures observed == old(observed)[name := list]
      ensures Observing(name) && NoDuplicates(list)
    {
      var _ := ObserveKlass();
      var entries := Pending(observed, name);
      if block.Some? {
        UniqAppend(entries, block.value);
        entries := entries + [block.value];
      } else {
        UniqOfDistinct(entries);
      }
      entries := Uniq(entries);
      observed := observed[name := entries];
      list := entries;
    }

    /**
      `check_method`: deletes the entry for `name` and calls its handlers in
      order.  It never raises: an absent entry (`nil.each`) and a failing
      handler are both swallowed by the `rescue`.  `fails` says which
      handlers raise; `fired` is the handlers that were called, in order.
    */
    method CheckMethod(name: Name, fails: R -> bool) returns (fired: seq<R>)
      requires Valid()
      modifies this
      ensures Valid()
      ensures observed == old(observed) - {name} && !Observing(name)
      ensures subscribed == old(subscribed) && subscriptions == old(subscriptions)
      ensures fired == Fired(Pending(old(observed), name), fails)
    {
      var handlers: Option<seq<R>> := if name in observed then Some(observed[name]) else None;
      observed := observed - {name};
      fired := [];
      if handlers.None? {
        return;
      }
      var hs := handlers.value;
      var i := 0;
      while i < |hs|
        invariant 0 <= i <= |hs|
        invariant fired == hs[..i]
        invariant forall j :: 0 <= j < i ==> !fails(hs[j])
      {
        fired := fired + [hs[i]];
        if fails(hs[i]) {
          FiredUpToFailure(hs, fails, i);
          return;
        }
        i := i + 1;
      }
      FiredAll(hs, fails);
    }
  }

  /**
    A reaction fires at most once: after `CheckMethod(name)` a second one
    calls nothing, and a later `Observe(name, b)` starts from a fresh list
    holding only `b`.
  */
  method OneShot<R(==)>(name: Name, r: R, b: R, fails: R -> bool)
    returns (first: seq<R>, second: seq<R>, renewed: seq<R>)
    ensures first == [r] && second == [] && renewed == [b]
  {
    var w := new Introspector<R>(0);
    var _ := w.Observe(name, Some(r));
    first := w.CheckMethod(name, fails);
    second := w.CheckMethod(name, fails);
    renewed := w.Observe(name, Some(b));
  }

  /**
    Subscribing happens once however many names are observed, and observing
    without a block leaves an empty entry that still counts as observed.
  */
  method SubscribeOnce<R(==)>(a: Name, b: Name) returns (subscriptions: nat, observing: bool, list: seq<R>)
    ensures subscriptions == 1 && observing && list == []
  {
    var w := new Introspector<R>(0);
    var _ := w.Observe(a, None);
    var _ := w.Observe(b, None);
    list := w.Observe(a, None);
    subscriptions := w.subscriptions;
    observing := w.Observing(a);
  }
}
