/** The runtime behaviour of the `DelegateCommand` and `DelegateCommand<T>`
    classes whose text the generators add to every compilation. Actions and
    predicates act on an abstract view-model state `S`; `H` stands for a
    handler subscribed to `CanExecuteChanged`. The two fields the constructors
    set are `readonly`, so no operation replaces them. */
module DelegateCommand {
  import opened Wrappers

  /** `DelegateCommand`: the bound action, the bound predicate (`null` is
      `None`) and the handlers of the `CanExecuteChanged` event. */
  datatype Command<!S, H> = Command(execute: S -> S, canExecute: Option<S -> bool>, handlers: seq<H>)

  /** `DelegateCommand<T>`: the same, with the command parameter passed on. */
  datatype CommandOf<!S, !T, H> = CommandOf(execute: (S, T) -> S, canExecute: Option<(S, T) -> bool>, handlers: seq<H>)

  /** `new DelegateCommand(execute, canExecute)`. */
  function Create<S, H>(execute: S -> S, canExecute: Option<S -> bool>): Command<S, H>
  {
    Command(execute, canExecute, [])
  }

  /** `new DelegateCommand(execute)`, which chains to `this(execute, null)`. */
  function CreateWithoutPredicate<S, H>(execute: S -> S): Command<S, H>
  {
    Create(execute, None)
  }

  /** `CanExecute(parameter)`: the parameter is ignored. */
  function CanExecute<S, H>(c: Command<S, H>, state: S): bool
  {
    match c.canExecute
    case None => true
    case Some(p) => p(state)
  }

  /** `Execute(parameter)`: runs the bound action; the parameter is ignored. */
  function Execute<S, H>(c: Command<S, H>, state: S): S
  {
    c.execute(state)
  }

  /** `CanExecuteChanged += handler`. */
  function Subscribe<S, H>(c: Command<S, H>, handler: H): Command<S, H>
  {
    c.(handlers := c.handlers + [handler])
  }

  /** `RaiseCanExecuteChanged()`: invokes every subscribed handler, in
      subscription order (none when the event is `null`), and returns the
      command alongside the handlers invoked. */
  function RaiseCanExecuteChanged<S, H>(c: Command<S, H>): (Command<S, H>, seq<H>)
  {
    (c, c.handlers)
  }

  /** `new DelegateCommand<T>(execute, canExecute)`. */
  function CreateOf<S, T, H>(execute: (S, T) -> S, canExecute: Option<(S, T) -> bool>): CommandOf<S, T, H>
  {
    CommandOf(execute, canExecute, [])
  }

  function CreateOfWithoutPredicate<S, T, H>(execute: (S, T) -> S): CommandOf<S, T, H>
  {
    CreateOf(execute, None)
  }

  /** `CanExecute(parameter)` of `DelegateCommand<T>`; the cast `(T)parameter`
      is taken to succeed. */
  function CanExecuteOf<S, T, H>(c: CommandOf<S, T, H>, state: S, parameter: T): bool
  {
    match c.canExecute
    case None => true
    case Some(p) => p(state, parameter)
  }

  function ExecuteOf<S, T, H>(c: CommandOf<S, T, H>, state: S, parameter: T): S
  {
    c.execute(state, parameter)
  }

  function SubscribeOf<S, T, H>(c: CommandOf<S, T, H>, handler: H): CommandOf<S, T, H>
  {
    c.(handlers := c.handlers + [handler])
  }

  function RaiseCanExecuteChangedOf<S, T, H>(c: CommandOf<S, T, H>): (CommandOf<S, T, H>, seq<H>)
  {
    (c, c.handlers)
  }

  /** Seen through its observers, a new command executes the action, is
      enabled when no predicate is bound and otherwise as the predicate says,
      and has nobody to notify. */
  lemma CreateObserved<S, H>(execute: S -> S, canExecute: Option<S -> bool>, state: S)
    ensures Execute(Create<S, H>(execute, canExecute), state) == execute(state)
    ensures CanExecute(Create<S, H>(execute, canExecute), state) == (canExecute.None? || canExecute.value(state))
    ensures RaiseCanExecuteChanged(Create<S, H>(execute, canExecute)).1 == []
  {
  }

  /** After subscribing, the next raise also notifies the handler, after
      everyone notified before, and neither `CanExecute` nor `Execute` answers
      differently. */
  lemma SubscribeObserved<S, H>(c: Command<S, H>, handler: H, state: S)
    ensures RaiseCanExecuteChanged(Subscribe(c, handler)).1 == RaiseCanExecuteChanged(c).1 + [handler]
    ensures CanExecute(Subscribe(c, handler), state) == CanExecute(c, state)
    ensures Execute(Subscribe(c, handler), state) == Execute(c, state)
  {
  }

  /** The generic constructor: the same observations, with the parameter
      passed on to the action and the predicate. */
  lemma CreateOfObserved<S, T, H>(execute: (S, T) -> S, canExecute: Option<(S, T) -> bool>, state: S, parameter: T)
    ensures ExecuteOf(CreateOf<S, T, H>(execute, canExecute), state, parameter) == execute(state, parameter)
    ensures CanExecuteOf(CreateOf<S, T, H>(execute, canExecute), state, parameter)
         == (canExecute.None? || canExecute.value(state, parameter))
    ensures RaiseCanExecuteChangedOf(CreateOf<S, T, H>(execute, canExecute)).1 == []
  {
  }

  /** A command built without a predicate can always execute, and executing it
      runs exactly its action. */
  lemma WithoutPredicateAlwaysExecutable<S, H>(execute: S -> S, state: S)
    ensures CreateWithoutPredicate<S, H>(execute) == Create<S, H>(execute, None)
    ensures CanExecute(CreateWithoutPredicate<S, H>(execute), state)
    ensures Execute(CreateWithoutPredicate<S, H>(execute), state) == execute(state)
  {
  }

  /** With a predicate bound, `CanExecute` is exactly the predicate's answer. */
  lemma PredicateDecides<S, H>(execute: S -> S, guard: S -> bool, state: S)
    ensures CanExecute(Create<S, H>(execute, Some(guard)), state) == guard(state)
  {
  }

  lemma WithoutPredicateAlwaysExecutableOf<S, T, H>(execute: (S, T) -> S, state: S, parameter: T)
    ensures CanExecuteOf(CreateOfWithoutPredicate<S, T, H>(execute), state, parameter)
    ensures ExecuteOf(CreateOfWithoutPredicate<S, T, H>(execute), state, parameter) == execute(state, parameter)
  {
  }

  /** The generic command decides like the plain one, with the parameter
      passed to the predicate. */
  lemma GenericAgrees<S, T, H>(c: Command<S, H>, state: S, parameter: T)
    ensures CanExecuteOf(CommandOf((s: S, _: T) => c.execute(s),
                                   match c.canExecute
                                   case None => None
                                   case Some(p) => Some((s: S, _: T) => p(s)),
                                   c.handlers), state, parameter)
         == CanExecute(c, state)
  {
  }

  /** Subscribes the handlers one by one, in order. */
  function SubscribeAll<S, H>(c: Command<S, H>, hs: seq<H>): Command<S, H>
    decreases |hs|
  {
    if |hs| == 0 then c else SubscribeAll(Subscribe(c, hs[0]), hs[1..])
  }

  /** Raising notifies every handler once, in the order they subscribed, and
      changes neither the action nor the predicate, however often it is raised. */
  lemma {:induction false} RaiseNotifiesSubscribers<S, H>(c: Command<S, H>, hs: seq<H>)
    ensures RaiseCanExecuteChanged(SubscribeAll(c, hs)).1 == c.handlers + hs
    ensures RaiseCanExecuteChanged(SubscribeAll(c, hs)).0.execute == c.execute
    ensures RaiseCanExecuteChanged(SubscribeAll(c, hs)).0.canExecute == c.canExecute
    decreases |hs|
  {
    if |hs| > 0 {
      RaiseNotifiesSubscribers(Subscribe(c, hs[0]), hs[1..]);
      assert c.handlers + [hs[0]] + hs[1..] == c.handlers + hs;
    }
  }

  /** Raising changes nothing a later `CanExecute` or `Execute` can observe. */
  lemma RaiseIsObservationallyInert<S, H>(c: Command<S, H>, state: S)
    ensures CanExecute(RaiseCanExecuteChanged(c).0, state) == CanExecute(c, state)
    ensures Execute(RaiseCanExecuteChanged(c).0, state) == Execute(c, state)
    ensures RaiseCanExecuteChanged(RaiseCanExecuteChanged(c).0) == RaiseCanExecuteChanged(c)
  {
  }
}
