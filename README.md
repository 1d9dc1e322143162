# aspectory, modelled in Dafny

aspectory lets a Ruby class attach advice to its methods without editing
them. Advice can run *before* a method, *after* it, or *around* it. This
project models three parts of it and proves their properties.

- **The definition watcher** (`GotYoBack::Introspector`, file
  `introspector.dfy`, class `GotYoBack.Introspector`). It keeps one-shot
  reactions per method name, hooked once into the class's `method_added`
  event. When a method of that name is defined, the reactions fire in order
  and the entry is deleted. A failing reaction stops the rest, and the
  failure is swallowed. A watcher that holds any entry has hooked the
  event, so running `check_method` on each definition is the same as
  running it through the hook.
- **The per-class façade** (`BootyCall::Hook`, file `hook.dfy`, class
  `BootyCall.HookedClass`). Including it gives a class its own registry and
  watcher. `before` and `after` go to the registry at once when the method
  is defined. Otherwise they are queued with the watcher as a reaction that
  re-issues the call when the method appears.
- **The advice registry** (`Aspectory::Callbacker`), as its examples in
  `spec/callbacker_spec.rb` fix it:
  - `chains.dfy` gives the pure semantics of an advised call.
  - `callbacker.dfy` holds registration and step-by-step dispatch.
  - `callbacker_spec.dfy` holds one member per example.

  The methods and blocks of the examples are written in a small language
  (`Chains.Code`). Its statements push onto `@results`, call the block,
  throw, and return. Every example states the log and the value the call
  returns.

Supporting modules:
- `wrappers.dfy`: Option and Result.
- `lists.dfy`: Ruby's `uniq!` (`Lists.Uniq`).
- `method_names.dfy`: the `foo_without_callbacks` / `bar_without_callbacks!`
  alias names.

How a call of an advised method runs, as the examples fix it:
1. **Before advice.** Every before advice runs, in registration order, with
   no arguments. If one of them returned a falsy value, the call returns the
   first such value. The original and the after advice do not run.
2. **Around advice.** Every around advice runs, in order, with a
   continuation that runs the original with the caller's arguments and
   block. If none of them calls its continuation, the call is halted: the
   result is the last around advice's value and the after advice are
   skipped. With no around advice, the original runs directly.
3. **After advice.** Every after advice runs, in order, on the result. Their
   values are ignored, so the call returns the original's value.
4. **Catching throws.** The call is wrapped in `catch(name)`: a throw to the
   method's own name returns its payload.
5. **Registration.**
   - Registering advice skips advice already in the list.
   - The first registration for a method installs its dispatcher, only that
     once.
   - `__PRISTINE__` and the `_without_callbacks` alias run the original with
     no advice.
   - Instances of subclasses that define nothing behave as instances of the
     advised class.

The source of `Aspectory::Callbacker` is not part of this model. Its
behaviour is taken from the examples. In three places they go against the
reading one would expect of such a library:
- One might expect the first falsy before advice to veto the call at once.
  Here all before advice run before the veto is decided (test 193-203 logs
  both mocks, though the first returns nil).
- One might expect around advice to be nested, each one's continuation
  running the next. Here they run one after another, not nested (test
  579-587 logs both mocks, though neither calls its continuation). So when
  two around advice both call their continuation, the original runs twice
  and its log appears twice.
- The value of a completed call is taken to be the original's, not the
  last after advice's. The after examples (tests 279-450) check only the log
  and a throw's payload. An after advice "cannot enable halting" (test
  350-355), so its value is ignored.

## Model

| member | source | states |
|---|---|---|
| Lists.Uniq | lib/got_yo_back/introspector.rb:28 | `uniq!` leaves a duplicate-free list holding exactly the elements of its input, never longer |
| Lists.UniqOfDistinct | lib/got_yo_back/introspector.rb:28 | a list without duplicates is left unchanged by `uniq!` |
| Lists.UniqAppend | lib/got_yo_back/introspector.rb:26-28 | pushing a block onto a duplicate-free list and then `uniq!` appends it at the end, or leaves the list as it was when the block is already there |
| Lists.UniqExtends | lib/got_yo_back/introspector.rb:26-28 | appending several elements and then `uniq!` keeps the old list as a prefix |
| Lists.UniqIdempotent | lib/got_yo_back/introspector.rb:28 | a second `uniq!` changes nothing |
| Lists.UniqAbsorbs | spec/callbacker_spec.rb:265-272 | appending the same elements a second time leaves the list as after the first time |
| Lists.UniqAbsorbsAll | spec/callbacker_spec.rb:265-272 | appending only elements already in a duplicate-free list changes nothing |
| MethodNames.AliasRoundTrip | spec/callbacker_spec.rb:83-111 | the `_without_callbacks` alias of any name is recognised as an alias and leads back to that name |
| MethodNames.AliasSound | spec/callbacker_spec.rb:83-111 | a name recognised as the alias of `m` is exactly `m`'s alias (the converse of the round trip) |
| MethodNames.AliasInjective | spec/callbacker_spec.rb:83-111 | distinct methods get distinct aliases |
| MethodNames.AliasShape | spec/callbacker_spec.rb:91-110 | the alias keeps a trailing `!`, `?` or `=` as its last character, after the `_without_callbacks` marker; otherwise it is the name followed by the marker; it never equals the name |
| GotYoBack.Fired | lib/got_yo_back/introspector.rb:34 | the handlers called are a prefix of the list; none but the last of them fails; either all were called or the last one called failed |
| GotYoBack.FiredUpToFailure | lib/got_yo_back/introspector.rb:34 | the handlers called are exactly those up to and including the first failing one |
| GotYoBack.FiredAll | lib/got_yo_back/introspector.rb:34 | when no handler fails, every handler is called |
| GotYoBack.Introspector.constructor | lib/got_yo_back/introspector.rb:5-8 | a new watcher holds its class and no pending reactions, and is not yet hooked into the class |
| GotYoBack.Introspector.ObserveKlass | lib/got_yo_back/introspector.rb:10-17 | hooks the definition event exactly once however often it is called, returns true, and leaves the pending reactions alone |
| GotYoBack.Introspector.Observe | lib/got_yo_back/introspector.rb:23-30 | hooks the class; the entry for the name becomes its old list (empty when there was none) with the block appended unless it is already there; only that entry changes; the list returned is that entry, duplicate-free |
| GotYoBack.Introspector.CheckMethod | lib/got_yo_back/introspector.rb:32-35 | deletes the name's entry and nothing else; the handlers called are the deleted ones up to the first failure; an absent entry calls nothing and raises nothing |
| GotYoBack.OneShot | lib/got_yo_back/introspector.rb:23-35 | a reaction fires once: a second definition fires nothing, and observing again starts a fresh list |
| GotYoBack.SubscribeOnce | lib/got_yo_back/introspector.rb:10-30 | observing several names hooks the class once; observing without a block leaves an empty entry that still counts as observed |
| BootyCall.ReplaysAppend | lib/booty_call/hook.rb:27 | the declarations replayed by a list of reactions with one more at the end are those of the list, then that one's |
| BootyCall.HookedClass.constructor | lib/booty_call/hook.rb:3-8 | including the hook gives the class its own new watcher and an empty registry |
| BootyCall.HookedClass.Callback | lib/booty_call/hook.rb:24-28 | a defined method's declaration goes to the registry and nothing is queued; an undefined one leaves the registry alone, leaves the class hooked into its definition event, and queues exactly one new reaction under its name that re-issues the declaration |
| BootyCall.HookedClass.Before | lib/booty_call/hook.rb:12-14 | `before` is `callback` at the before position |
| BootyCall.HookedClass.After | lib/booty_call/hook.rb:16-18 | `after` is `callback` at the after position |
| BootyCall.HookedClass.Observe | lib/booty_call/hook.rb:20-22 | `observe` adds the user's block to this class's own watcher, as the watcher's `observe` does, and leaves the class hooked into its definition event |
| BootyCall.HookedClass.MethodAdded | lib/got_yo_back/introspector.rb:13-14 | defining a method fires its pending reactions up to the first failing user block; the replays among them reach the registry in order and the entry is gone; for a method every object has, the registry is unchanged, no other entry changes, and the name's new entry replays exactly the fired declarations, in order |
| BootyCall.HookedClass.RegisterFired | lib/booty_call/hook.rb:27 | running the fired reactions of a defined method in order sends the declarations of the replays among them to the registry, in order, and queues nothing |
| BootyCall.HookedClass.PerformRegister | lib/booty_call/hook.rb:24-26 | one fired replay for a method the class now defines sends its declaration to the registry and queues nothing |
| BootyCall.HookedClass.RequeueFired | lib/booty_call/hook.rb:24-28 | running the fired reactions of a method every object has leaves the registry alone and queues their declarations again under its name, in order, changing no other entry |
| BootyCall.HookedClass.PerformRequeue | lib/booty_call/hook.rb:24-28 | one fired replay for a method every object has queues its declaration again under that name and nothing reaches the registry |
| BootyCall.Requeue | lib/booty_call/hook.rb:27-28 | appending a replay to a name's entry adds its declaration to the end of the entry's replays and changes no other entry |
| BootyCall.RequeuedFromNone | lib/got_yo_back/introspector.rb:33-34 | requeueing onto the watcher after `check_method` deleted the name's entry leaves exactly the requeued declarations under it and every other entry as before |
| BootyCall.RequeuedTrans | lib/booty_call/hook.rb:27-28 | requeueing one list of declarations and then another requeues the two lists one after the other |
| BootyCall.HookedClass.Perform | lib/booty_call/hook.rb:24-28 | a fired replay re-issues its declaration through `callback`: for a defined method the declaration reaches the registry and nothing is queued; for a method every object has it is queued again under the name as a new proc; a user block is recorded as run |
| BootyCall.DeferredWiring | lib/booty_call/hook.rb:24-28 | a declaration for a method not yet defined reaches the registry once, when the method is defined, and a second definition does not repeat it |
| BootyCall.ImmediateWiring | lib/booty_call/hook.rb:25-26 | a declaration for a defined method reaches the registry at once and nothing is queued |
| BootyCall.SeparateClasses | lib/booty_call/hook.rb:3-8 | two hooked classes share no watcher and no registry |
| BootyCall.ObjectMethodStaysDeferred | lib/got_yo_back/introspector.rb:37-39 | a declaration for a method every object has does not reach the registry when the method is defined, and the name's entry then replays exactly that declaration again |
| Chains.ExtendKeeps | spec/callbacker_spec.rb:265-272 | registration keeps every advice list duplicate-free, keeps what was there as a prefix, changes only the list at its position and keeps the original |
| Chains.ExtendIdempotent | spec/callbacker_spec.rb:396-403 | registering the same advice twice at one position leaves the chain as one registration does |
| Chains.ExtendFresh | spec/callbacker_spec.rb:116-120 | the first registration on a method records its advice as given, in order |
| Chains.ExtendFreshTwice | spec/callbacker_spec.rb:193-203 | two registrations at one position list the first one's advice, then the second one's |
| Chains.BeforesStopped | spec/callbacker_spec.rb:205-217 | once a before advice throws or raises, later before advice change nothing |
| Chains.AroundsStopped | spec/callbacker_spec.rb:589-593 | once an around advice throws or raises, later around advice change nothing |
| Chains.AftersStopped | spec/callbacker_spec.rb:380-384 | once an after advice throws or raises, later after advice change nothing |
| Chains.BeforesAllRun | spec/callbacker_spec.rb:193-203 | when no before advice throws, all run in registration order, and the call is vetoed exactly when one of them returns a falsy value |
| Chains.AftersAllRun | spec/callbacker_spec.rb:363-371 | when no after advice throws, all run in order on the result and none stops the call |
| Chains.FirstVeto | spec/callbacker_spec.rb:186-203 | when the before advice complete, the veto recorded is the value of the first one that returns a falsy value |
| Chains.BeforeVeto | spec/callbacker_spec.rb:186-191 | a falsy before advice means the original and the after advice never run: the log is the before advice's alone and the call returns a falsy value, namely the value of the first before advice that returned one |
| Chains.VetoFalsy | spec/callbacker_spec.rb:186-191 | the value a vetoed call returns is falsy |
| Chains.PlainOrder | spec/callbacker_spec.rb:350-361 | with truthy before advice and no around advice, the log is the before advice's, the original's, then the after advice's, each in registration order, and the call returns the original's value whatever the after advice return |
| Chains.BeforeThrow | spec/callbacker_spec.rb:205-217 | a before advice throwing the method's own name makes the call return the payload, and the log holds nothing of the original or of later advice |
| Chains.AroundsAllRun | spec/callbacker_spec.rb:579-587 | when no around advice throws, all run in order with the continuation, the round counts as proceeding exactly when one of them called it, and its value is the last one's |
| Chains.ApprovedBefores | spec/callbacker_spec.rb:116-120 | truthy before advice let the call through, logging only their own traces |
| Chains.AroundHalts | spec/callbacker_spec.rb:572-587 | with approving before advice and one or more around advice of which none calls its continuation, the log is the before advice's and then every around advice's, in order, and the call returns the last one's value: the original and the after advice never run |
| Chains.YieldedReturned | spec/callbacker_spec.rb:457-476 | an around advice that called its continuation and returned normally saw the original return normally |
| Chains.AroundProceeds | spec/callbacker_spec.rb:457-476 | with approving before advice and any number of around advice that return normally, one of which calls its continuation, the original returns normally, the log is the before advice's, then the around advice's (holding the original's), then the after advice's on its value, and the call returns the original's value |
| Chains.AroundThrow | spec/callbacker_spec.rb:589-593 | with approving before advice, an around advice throwing the method's own name after the earlier ones returned makes the call return the payload; later around advice and the after advice never run |
| Chains.AfterThrow | spec/callbacker_spec.rb:380-384 | when the call reaches the after advice and one of them throws the method's own name after the earlier ones returned, the call returns the payload, the log ends at that advice and later after advice never run |
| Chains.PristineBypasses | spec/callbacker_spec.rb:55-81 | `__PRISTINE__` gives the same effect whatever advice the method has, namely the original run directly; a method without a chain raises NoMethodError |
| Chains.AliasIsPristine | spec/callbacker_spec.rb:83-111 | calling the `_without_callbacks` alias of an advised method is calling `__PRISTINE__` on it |
| Chains.InheritedDispatch | spec/callbacker_spec.rb:144-154 | classes between the instance's class and the advised class that do not answer the name themselves leave the call as the advised class makes it |
| Chains.SendOwnClass | spec/callbacker_spec.rb:55-81 | on an instance of the class, an advised name runs its dispatcher, an alias runs the pristine original, any other method runs as defined, and an unknown name raises NoMethodError |
| Chains.VisibleThroughEmpty | spec/callbacker_spec.rb:144-154 | subclasses that define nothing do not change which methods an instance sees |
| Chains.SubclassSend | spec/callbacker_spec.rb:144-154 | an instance of a subclass, at any depth, that defines nothing behaves exactly as an instance of the advised class |
| Aspectory.ChainOf | spec/callbacker_spec.rb:116-120 | in a well-formed registry, the chain of any defined method wraps the class's own body for it and has no advice list with a duplicate; a method without a chain gets one with no advice |
| Aspectory.RegisteredWellFormed | spec/callbacker_spec.rb:178-182 | registration keeps the registry well formed: every advised method installed exactly once, its chain around the class's own body, no advice list with a duplicate |
| Aspectory.AppendFresh | spec/callbacker_spec.rb:178-182 | logging an installation of a name not yet installed keeps the log free of repeats |
| Aspectory.RegisteredIdempotent | spec/callbacker_spec.rb:265-272 | the same registration made twice leaves the registry as one registration does |
| Aspectory.InstallsOnce | spec/callbacker_spec.rb:178-182 | however many registrations a defined method gets, its dispatcher is installed once, by the first, and no other name is installed |
| Aspectory.Advices | spec/callbacker_spec.rb:253-263 | one registration adds the named methods in the order given, then the block |
| Aspectory.Callbacker.constructor | spec/callbacker_spec.rb:51 | a new registry for the class has no chains and has installed nothing |
| Aspectory.Callbacker.Register | spec/callbacker_spec.rb:178-182 | adds the advice to the method's chain as `Registered` specifies, reports whether this call installed the dispatcher (only the first registration does), and keeps the registry well formed; a name the class does not define gets the model's NameError refusal, which changes nothing |
| Aspectory.Callbacker.Before | spec/callbacker_spec.rb:116-120 | `before` registers at the before position |
| Aspectory.Callbacker.After | spec/callbacker_spec.rb:279-284 | `after` registers at the after position |
| Aspectory.Callbacker.Around | spec/callbacker_spec.rb:457-476 | `around` registers at the around position |
| Aspectory.Callbacker.RunBefores | spec/callbacker_spec.rb:193-203 | the loop over the before advice computes the before stage of the chain's semantics |
| Aspectory.Callbacker.RunArounds | spec/callbacker_spec.rb:579-587 | the loop over the around advice computes the around stage of the chain's semantics |
| Aspectory.Callbacker.RunAfters | spec/callbacker_spec.rb:363-371 | the loop over the after advice computes the after stage of the chain's semantics |
| Aspectory.Callbacker.Dispatch | spec/callbacker_spec.rb:114-217 | the dispatcher's effect is the chain's semantics for the call, inside `catch(name)` |
| Aspectory.Callbacker.Call | spec/callbacker_spec.rb:83-111 | calling a name on an instance of the class has the effect of sending it to the class |
| Aspectory.Callbacker.PristineCall | spec/callbacker_spec.rb:55-81 | `__PRISTINE__` runs the original of an advised method, and raises NoMethodError for any other name |
| CallbackerSpec.ExamplesClass | spec/callbacker_spec.rb:7-49 | the examples' class defines the methods the examples use and no `whiz` |
| CallbackerSpec.Fixture | spec/callbacker_spec.rb:6-53 | each example starts from a registry for the class with nothing advised |
| CallbackerSpec.PristineRunsOriginal | spec/callbacker_spec.rb:55-75 | `__PRISTINE__(:foo)` logs `[:foo]`, with an argument `[:bar]`, with a block `[:bar]`: no advice runs |
| CallbackerSpec.PristineUnadvised | spec/callbacker_spec.rb:77-80 | `__PRISTINE__(:whiz)` raises NoMethodError |
| CallbackerSpec.AliasRuns | spec/callbacker_spec.rb:83-111 | the alias of an advised method runs that method's original body with the arguments given, and no advice |
| CallbackerSpec.FooAlias | spec/callbacker_spec.rb:84-89 | `foo_without_callbacks` is the alias of `foo` |
| CallbackerSpec.BangAlias | spec/callbacker_spec.rb:91-96 | `bar_without_callbacks!` is the alias of `bar!` |
| CallbackerSpec.QueryAlias | spec/callbacker_spec.rb:98-103 | `bar_without_callbacks?` is the alias of `bar?` |
| CallbackerSpec.AssignmentAlias | spec/callbacker_spec.rb:105-110 | `bar_without_callbacks=` is the alias of `bar=` |
| CallbackerSpec.AliasSkipsAdvice | spec/callbacker_spec.rb:84-89 | `foo_without_callbacks` logs `[:foo]`: the before block does not run |
| CallbackerSpec.AliasKeepsEnding | spec/callbacker_spec.rb:91-110 | the aliases of `bar!`, `bar?` and `bar=` called with `:bar` log `[:bar]`, `[true]` and `[:bar]` |
| CallbackerSpec.AdviseInSubclasses | spec/callbacker_spec.rb:136-154 | after one registration, instances of a subclass and of its subclass that define nothing run the advised method's dispatcher |
| CallbackerSpec.BeforeBlock | spec/callbacker_spec.rb:116-120 | the before block runs first, then the original: the log is `[:before, :foo]` and the call returns :foo |
| CallbackerSpec.BeforeAssignment | spec/callbacker_spec.rb:124-128 | before advice on `bar=` runs ahead of it: the log is `[:banged, :bar]` and the call returns the `@results` array |
| CallbackerSpec.BeforeQuery | spec/callbacker_spec.rb:130-134 | before advice on `bar?` runs ahead of it: the log is `[:banged, true]` and the call returns the `@results` array |
| CallbackerSpec.BeforeInSubclasses | spec/callbacker_spec.rb:144-154 | instances of a subclass, and of its subclass, get the before advice registered on the class: both logs are `[:before, :foo]` |
| CallbackerSpec.BeforeKeepsArgument | spec/callbacker_spec.rb:164-169 | the caller's argument still reaches the original: the log is `[:before, :arg]` and the call returns :arg |
| CallbackerSpec.BeforeKeepsBlock | spec/callbacker_spec.rb:171-176 | the caller's block still reaches the original: the log is `[:before, :block]` and the call returns :foo |
| CallbackerSpec.InstallOnlyOnce | spec/callbacker_spec.rb:178-182 | a second before registration for the same method does not install the dispatcher again: the first registration installs the dispatcher, the second does not, and `:foo` is installed once |
| CallbackerSpec.BeforeFalseHalts | spec/callbacker_spec.rb:186-191 | a before block returning false stops the call, which returns false: the log is empty and the call returns false |
| CallbackerSpec.BeforeBlocksAllRun | spec/callbacker_spec.rb:193-203 | both before blocks run, in order; the mocks return nil, so the original then does not run: the log is `[:ping!, :pong!]` and the call returns nil |
| CallbackerSpec.BeforeThrowReturns | spec/callbacker_spec.rb:205-217 | a before block throwing `:foo` makes `foo` return the payload, and the original never runs: the log is empty and the call returns :result |
| CallbackerSpec.BeforeSymbol | spec/callbacker_spec.rb:222-227 | the named method `bar` runs first, with no arguments: the log is `[:bar, :foo]` and the call returns :foo |
| CallbackerSpec.BeforeSymbolKeepsArgument | spec/callbacker_spec.rb:230-235 | with a named before advice the caller's argument reaches the original: the log is `[:bar, :arg]` and the call returns :arg |
| CallbackerSpec.BeforeSymbolKeepsBlock | spec/callbacker_spec.rb:237-242 | with a named before advice the caller's block reaches the original: the log is `[:bar, :block]` and the call returns :foo |
| CallbackerSpec.BeforeSymbolHalts | spec/callbacker_spec.rb:246-251 | the named method `no` returns false and stops the call: the log is empty and the call returns false |
| CallbackerSpec.BeforeSymbolsAllRun | spec/callbacker_spec.rb:253-263 | both named before advice run, in order; the mocks return nil, so the original then does not run: the log is `[:ping!, :pong!]` and the call returns nil |
| CallbackerSpec.BeforeSymbolOnce | spec/callbacker_spec.rb:265-272 | the same named before advice registered twice runs once: the log is `[:ping!]` and the call returns nil |
| CallbackerSpec.AfterBlock | spec/callbacker_spec.rb:279-284 | the after block runs after the original: the log is `[:foo, :after]` and the call returns :foo |
| CallbackerSpec.AfterInSubclasses | spec/callbacker_spec.rb:331-340 | instances of a subclass, and of its subclass, get the after advice registered on the class: both logs are `[:foo, :after]` |
| CallbackerSpec.AfterKeepsArgument | spec/callbacker_spec.rb:287-292 | the caller's argument still reaches the original: the log is `[:arg, :after]` and the call returns :arg |
| CallbackerSpec.AfterKeepsBlock | spec/callbacker_spec.rb:294-299 | the caller's block still reaches the original: the log is `[:block, :after]` and the call returns :foo |
| CallbackerSpec.AfterInstallOnlyOnce | spec/callbacker_spec.rb:301-306 | a second after registration for the same method does not install the dispatcher again: the first registration installs the dispatcher, the second does not, and `:bar` is installed once |
| CallbackerSpec.AfterAssignment | spec/callbacker_spec.rb:310-314 | after advice on `bar=` runs after it: the log is `[:bar, :banged]` and the call returns the `@results` array |
| CallbackerSpec.AfterQuery | spec/callbacker_spec.rb:316-320 | after advice on `bar?` runs after it: the log is `[true, :banged]` and the call returns the `@results` array |
| CallbackerSpec.AfterFalseDoesNotHalt | spec/callbacker_spec.rb:350-355 | an after block returning false does not undo the call: the log is `[:foo]` and the call returns :foo |
| CallbackerSpec.AfterRunsOnFalse | spec/callbacker_spec.rb:357-361 | after advice runs when the method logs false: the log is `[false, :called]` and the call returns the `@results` array |
| CallbackerSpec.AfterBlocksAllRun | spec/callbacker_spec.rb:363-371 | both after blocks run, in order: the log is `[:foo, :ping!, :pong!]` and the call returns :foo |
| CallbackerSpec.AfterGetsResult | spec/callbacker_spec.rb:373-378 | the after block receives the method's result: the log is `[:foo, :foo]` and the call returns :foo |
| CallbackerSpec.AfterThrowReturns | spec/callbacker_spec.rb:380-384 | an after block throwing `:foo` gives the call its payload: the log is `[:foo]` and the call returns :result |
| CallbackerSpec.AfterSymbol | spec/callbacker_spec.rb:389-394 | the named method `bar?` runs after `foo`, on its result: the log is `[:foo, false]` and the call returns :foo |
| CallbackerSpec.AfterSymbolOnce | spec/callbacker_spec.rb:396-403 | the same named after advice registered twice runs once: the log is `[:foo, :ping!]` and the call returns :foo |
| CallbackerSpec.AfterSymbolKeepsArgument | spec/callbacker_spec.rb:406-411 | with a named after advice the caller's argument reaches the original, and its result the advice: the log is `[:bar, true]` and the call returns :bar |
| CallbackerSpec.AfterSymbolKeepsBlock | spec/callbacker_spec.rb:413-418 | with a named after advice the caller's block reaches the original, and not the advice: the log is `[:block, :foo]` and the call returns :foo |
| CallbackerSpec.AfterSymbolDoesNotHalt | spec/callbacker_spec.rb:422-427 | the named method `no` after the call does not undo it: the log is `[:foo]` and the call returns :foo |
| CallbackerSpec.AfterSymbolGetsResult | spec/callbacker_spec.rb:429-434 | the named method `bar` gets `foo`'s result as its argument: the log is `[:arg, :arg]` and the call returns :arg |
| CallbackerSpec.AfterSymbolsAllRun | spec/callbacker_spec.rb:436-444 | both named after advice run, in order: the log is `[:foo, :ping!, :pong!]` and the call returns :foo |
| CallbackerSpec.AfterSymbolThrowReturns | spec/callbacker_spec.rb:446-450 | the named method `pitch` throws `:foo` after the call, which returns the payload: the log is `[:foo]` and the call returns :result |
| CallbackerSpec.AroundBlock | spec/callbacker_spec.rb:457-476 | the around block logs around the original; the call returns the original's result: the log is `[:before, :foo, :after]` and the call returns :foo |
| CallbackerSpec.AroundInSubclasses | spec/callbacker_spec.rb:549-562 | instances of a subclass, and of its subclass, get the around advice registered on the class: both logs are `[:before, :foo, :after]` |
| CallbackerSpec.AroundKeepsArgument | spec/callbacker_spec.rb:479-488 | the original inside the around block gets the caller's argument: the log is `[:before, :arg, :after]` and the call returns :arg |
| CallbackerSpec.AroundKeepsBlock | spec/callbacker_spec.rb:490-499 | the original inside the around block gets the caller's block: the log is `[:before, :block, :after]` and the call returns :foo |
| CallbackerSpec.AroundInstallOnlyOnce | spec/callbacker_spec.rb:501-506 | a second around registration for the same method does not install the dispatcher again: the first registration installs the dispatcher, the second does not, and `:bar` is installed once |
| CallbackerSpec.AroundBang | spec/callbacker_spec.rb:510-518 | around advice on `bar!`: the log is `[:before, :bar, :after]` and the call returns the `@results` array |
| CallbackerSpec.AroundQuery | spec/callbacker_spec.rb:520-528 | around advice on `bar?`: the log is `[:before, true, :after]` and the call returns the `@results` array |
| CallbackerSpec.AroundAssignment | spec/callbacker_spec.rb:530-538 | around advice on `bar=`: the log is `[:before, :bar, :after]` and the call returns the `@results` array |
| CallbackerSpec.AroundFalseHalts | spec/callbacker_spec.rb:572-577 | an around block that never calls its continuation halts the call, which returns the block's value: the log is empty and the call returns false |
| CallbackerSpec.AroundBlocksAllRun | spec/callbacker_spec.rb:579-587 | both around blocks run; neither calls its continuation, so the original does not run: the log is `[:ping!, :pong!]` and the call returns nil |
| CallbackerSpec.AroundThrowReturns | spec/callbacker_spec.rb:589-593 | an around block that calls through and then throws `:foo` makes the call return the payload: the log is `[:foo]` and the call returns :result |
| CallbackerSpec.AroundSymbol | spec/callbacker_spec.rb:598-609 | the named method `wrapify` yields to the original; the call returns the original's result: the log is `[:before, :foo, :after]` and the call returns :foo |
| CallbackerSpec.AroundSymbolOnce | spec/callbacker_spec.rb:611-618 | the same named around advice registered twice runs once: the log is `[:ping!]` and the call returns nil |
| CallbackerSpec.AroundSymbolKeepsArgument | spec/callbacker_spec.rb:621-626 | `wrapify` passes the caller's argument on to the original: the log is `[:before, :bar, :after]` and the call returns :bar |
| CallbackerSpec.AroundSymbolKeepsBlock | spec/callbacker_spec.rb:628-633 | `wrapify` passes the caller's block on to the original: the log is `[:before, :block, :after]` and the call returns :foo |
| CallbackerSpec.AroundSymbolsAllRun | spec/callbacker_spec.rb:637-645 | both named around advice run; neither yields, so the original does not run: the log is `[:ping!, :pong!]` and the call returns nil |
| CallbackerSpec.AroundSymbolThrowReturns | spec/callbacker_spec.rb:647-651 | the named method `pitch` throws `:foo` around the call, which returns the payload: the log is empty and the call returns :result |

## Left out

- Ruby reflection and metaprogramming are not modelled: `meta_def`, `class_eval`, `extend`, `instance_methods`, `alias_method`, `define_method`. The class's method table is a map, the instance methods are a set, and hooking `method_added` is a counter (`GotYoBack.Introspector.subscriptions`).
- `compact!` (`lib/got_yo_back/introspector.rb:28`) is the identity here: a block is pushed only when one is given, so the lists never hold nil.
- `set.tap.compact!.uniq!` (`lib/got_yo_back/introspector.rb:28`) as written relies on a `tap` that, called without a block, returns a proxy that forwards each call to the array and answers with the array. Standard Ruby's `tap` needs a block and raises LocalJumpError without one. The model follows the evident intent: drop nils, then drop duplicates, in place.
- The options hash of `observe` (`lib/booty_call/hook.rb:20-21`) is not modelled. As written, `lib/booty_call/hook.rb:21` passes two positional arguments, `method_id` and `options`, to the watcher's `observe`. The `GotYoBack` watcher's `observe(method_id, &block)` (`lib/got_yo_back/introspector.rb:23`) takes one, so against that watcher every deferred `callback` would raise ArgumentError. The model follows the evident intent: the name and the block are forwarded, and the options are dropped.
- `lib/booty_call/hook.rb:6-7` names `BootyCall::Callbacker` and `BootyCall::Introspector`. The model uses the watcher of `GotYoBack` and an abstract registry that logs the declarations it receives (`BootyCall.HookedClass.registry`).
- In `check_method` the `rescue` is modelled as "the first failing handler stops the rest and nothing escapes". Which handlers fail is a parameter.
- Reactions and blocks are opaque values compared by identity. Each replay reaction that `callback` creates carries a fresh serial number, as each Ruby proc is a new object.
- The "has subclass specific callbacks" examples (`spec/callbacker_spec.rb:156-160`, `342-346`, `564-568`) are left out. Their expected logs depend on how advice on a superclass is merged with later advice for subclass instances, which the examples do not determine.
- Chains.RunAdvice: a named advice runs the bare body of the method of that name, looked up in the class's own table, and not that method's dispatcher. So the advice of an advised method that is named as advice do not run: a before `bar` on `foo`, where `bar` has a before block logging `:x`, logs `[:bar, :foo]`, where Ruby would log `[:x, :bar, :foo]`. A `_without_callbacks` alias named as advice is not in the table, so it raises NoMethodError instead of running the pristine body. Advice on a subclass's override is not modelled either.
- Aspectory.Callbacker.Register: refusing a name the class does not define with NameError, and changing nothing, is the model's choice. The registry's source is not part of this model and no example registers such a name, so whether the Ruby registry records the advice, fails later at its `alias_method`, or accepts the name silently is not settled. `BootyCall` itself only sends a declaration once the method is defined, so no deferred declaration reaches this case.
- Aspectory.Advices: one registration adds the named methods first and the block last. The examples never pass both, so this order is a choice of the model.
- Surplus arguments are ignored and no arity errors are modelled. A named after advice gets the result as its only argument.
- The `ping!`/`pong!` mocks with their `.with` and `.once` expectations are modelled as methods that log their own name and return nil. "Called once" is read off the log.
- `{ |fn| fn.call and throw :foo, :result }` (`spec/callbacker_spec.rb:590`) is modelled as calling the continuation and then throwing.
- Threads, and raising from within advice beyond the tagged throw and NoMethodError/LocalJumpError/NameError, are not modelled.
- Chains.Exec: its contract states only how a block's non-return propagates. The code language is specified by its own definition.
- MethodNames.WithoutCallbacks: its contract states only the alias's length. Its meaning is stated by `AliasRoundTrip`, `AliasSound` and `AliasShape`.
- BootyCall.Replays, BootyCall.UserBlocks: their contracts state only length bounds. They are used as specifications of `MethodAdded`, `RegisterFired` and `RequeueFired`.
