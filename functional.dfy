/**
 * Callable wrapping, placeholder binding and composition
 * (assignment/function.hpp).
 *
 * The C++ core is type-level: the signature R(Args...) of a Function, the
 * placeholder index N of PlaceHolder<N> and the length of every argument pack
 * are template arguments.  Here they are values: a Function carries its arity,
 * a bind argument is either a bound value or a placeholder with its index, and
 * the checks that the C++ compiler makes (static_assert, concepts) become
 * preconditions, except the rejection of a generic placeholder mixed with a
 * numbered one, which is modelled as an error value so that it can be proved
 * to happen exactly when it should.
 *
 * All argument types of one signature are one Dafny type V; a tuple result is
 * a sequence of one type M.
 */
module Functional {

  datatype Option<+T> = None | Some(value: T)

  datatype Result<+T, +E> = Ok(value: T) | Err(error: E)

  /** The one runtime failure of the core: the std::runtime_error thrown when an empty Function is called. */
  datatype Error = RuntimeError(message: string)

  const EmptyCallMessage: string := "Call to an empty Function!"

  /** The build-time rejection of translateGenericPlaceholder's static_assert. */
  datatype BuildError = MixedPlaceholders

  /**
   * The invocation capability ICallable<R, Args...>: defined at least on
   * argument lists of the signature's arity.  A call may fail, because the
   * callable may itself call an empty Function (a Binder or a composition).
   */
  type Callable<!V, +R> = seq<V> --> Result<R, Error>

  /**
   * Function<R(Args...)>: the signature's arity and the polymorphic_value pf_,
   * which is empty (None) in a moved-from Function.
   */
  datatype Function<!V, +R> = Function(arity: nat, pf: Option<Callable<V, R>>)

  /** A bind argument: a value of the parameter type, or PlaceHolder<index>; index 0 is the generic `_`. */
  datatype BindArg<V> = Val(v: V) | PH(index: nat)

  /** Binder<F, BindArgs...>: the Function f_ over the original signature and the bound arguments args_. */
  datatype Binder<!V, +R> = Binder(f: Function<V, R>, args: seq<BindArg<V>>)

  /** The held callable accepts every argument list of the signature's arity. */
  ghost predicate WellFormed<V(!new), R>(fn: Function<V, R>) {
    fn.pf.Some? ==> forall a: seq<V> :: |a| == fn.arity ==> fn.pf.value.requires(a)
  }

  predicate IsGeneric<V>(arg: BindArg<V>) {
    arg.PH? && arg.index == 0
  }

  predicate IsNumbered<V>(arg: BindArg<V>) {
    arg.PH? && arg.index > 0
  }

  /** hasPlaceHolder<BindArgs...> */
  predicate HasPlaceholder<V>(args: seq<BindArg<V>>) {
    exists j :: 0 <= j < |args| && args[j].PH?
  }

  predicate HasGeneric<V>(args: seq<BindArg<V>>) {
    exists j :: 0 <= j < |args| && IsGeneric(args[j])
  }

  predicate HasNumbered<V>(args: seq<BindArg<V>>) {
    exists j :: 0 <= j < |args| && IsNumbered(args[j])
  }

  /** Every placeholder is numbered and names one of n call arguments (std::get<phIdx - 1> compiles). */
  predicate Indexed<V>(args: seq<BindArg<V>>, n: nat) {
    forall j :: 0 <= j < |args| && args[j].PH? ==> 1 <= args[j].index <= n
  }

  /** Number of generic placeholders in args. */
  function CountGeneric<V>(args: seq<BindArg<V>>): nat {
    if args == [] then 0 else (if IsGeneric(args[0]) then 1 else 0) + CountGeneric(args[1..])
  }

  // ---------------------------------------------------------------------------
  // Function: construction and direct call
  // ---------------------------------------------------------------------------

  /** Callable::invoke: forward the arguments to the stored callable. */
  function Invoke<V, R>(c: Callable<V, R>, args: seq<V>): Result<R, Error>
    requires c.requires(args)
  {
    c(args)
  }

  /** Function(F&& f): store a callable accepting every argument list of the signature's arity. */
  function FromCallable<V(!new), R>(c: Callable<V, R>, arity: nat): (fn: Function<V, R>)
    requires forall a: seq<V> :: |a| == arity ==> c.requires(a)
    ensures WellFormed(fn) && fn.arity == arity && fn.pf == Some(c)
  {
    Function(arity, Some(c))
  }

  /** Function(F&& f) for a plain callable that returns a value and never throws. */
  function Lift<V(!new), R>(g: seq<V> --> R, arity: nat): (fn: Function<V, R>)
    requires forall a: seq<V> :: |a| == arity ==> g.requires(a)
    ensures WellFormed(fn) && fn.arity == arity && fn.pf.Some?
  {
    FromCallable((a: seq<V>) requires |a| == arity => Ok(g(a)), arity)
  }

  /** A moved-from Function of the given arity: pf_ holds nothing. */
  function Empty<V(!new), R>(arity: nat): (fn: Function<V, R>)
    ensures WellFormed(fn) && fn.arity == arity && fn.pf.None?
  {
    Function(arity, None)
  }

  /** Function::operator()(Args...): throw on an empty Function, otherwise invoke the held callable. */
  function Call<V(!new), R>(fn: Function<V, R>, args: seq<V>): (r: Result<R, Error>)
    requires WellFormed(fn) && |args| == fn.arity
    ensures fn.pf.None? ==> r == Err(RuntimeError(EmptyCallMessage))
  {
    match fn.pf
    case None => Err(RuntimeError(EmptyCallMessage))
    case Some(c) => Invoke(c, args)
  }

  /** Wrapping is transparent: calling a wrapped plain callable returns exactly its result. */
  lemma CallLifted<V(!new), R>(g: seq<V> --> R, arity: nat, args: seq<V>)
    requires forall a: seq<V> :: |a| == arity ==> g.requires(a)
    requires |args| == arity
    ensures Call(Lift(g, arity), args) == Ok(g(args))
  {
  }

  /** Calling an empty Function of any signature fails with the runtime error and yields no value. */
  lemma CallEmpty<V(!new), R>(arity: nat, args: seq<V>)
    requires |args| == arity
    ensures Call(Empty<V, R>(arity), args) == Err(RuntimeError(EmptyCallMessage))
    ensures !Call(Empty<V, R>(arity), args).Ok?
  {
  }

  // ---------------------------------------------------------------------------
  // Placeholders and binding
  // ---------------------------------------------------------------------------

  /** The generic placeholders before slot j: the first slot's, then those of the tail before slot j - 1. */
  lemma CountGenericPrefixes<V>(args: seq<BindArg<V>>)
    requires args != []
    ensures forall j :: 1 <= j <= |args| ==>
              CountGeneric(args[..j]) == (if IsGeneric(args[0]) then 1 else 0) + CountGeneric(args[1..][..j - 1])
  {
    forall j | 1 <= j <= |args|
      ensures CountGeneric(args[..j]) == (if IsGeneric(args[0]) then 1 else 0) + CountGeneric(args[1..][..j - 1])
    {
      assert args[..j][1..] == args[1..][..j - 1];
    }
  }

  /**
   * translateGenericPlaceholder<next>(args...): number the generic placeholders
   * from next on, left to right, keep values in place, and reject any numbered
   * placeholder.
   */
  function Translate<V>(args: seq<BindArg<V>>, next: nat): (r: Result<seq<BindArg<V>>, BuildError>)
    ensures r.Ok? <==> !HasNumbered(args)
    ensures r.Ok? ==> |r.value| == |args|
    ensures r.Ok? ==> forall j :: 0 <= j < |args| && args[j].Val? ==> r.value[j] == args[j]
    ensures r.Ok? ==> forall j :: 0 <= j < |args| && args[j].PH? ==>
                        r.value[j] == PH(next + CountGeneric(args[..j]))
    ensures r.Ok? ==> forall j :: 0 <= j < |args| && r.value[j].PH? ==>
                        next <= r.value[j].index < next + CountGeneric(args)
    decreases |args|
  {
    if args == [] then Ok([])
    else if IsGeneric(args[0]) then
      match Translate(args[1..], next + 1)
      case Err(e) => Err(e)
      case Ok(rest) =>
        CountGenericPrefixes(args);
        Ok([PH(next)] + rest)
    else if args[0].PH? then
      assert IsNumbered(args[0]);
      Err(MixedPlaceholders)
    else
      match Translate(args[1..], next)
      case Err(e) =>
        assert forall j :: 0 <= j < |args| - 1 ==> args[1..][j] == args[j + 1];
        Err(e)
      case Ok(rest) =>
        CountGenericPrefixes(args);
        Ok([args[0]] + rest)
  }

  /**
   * Function::operator()(BindArgs&&...), the overload chosen when the arguments
   * hold a placeholder: does not invoke the callable but returns
   * makeBinder(*this, ...) over the arguments, with generic placeholders
   * renumbered first when there are any.
   */
  function Bind<V(!new), R>(fn: Function<V, R>, args: seq<BindArg<V>>): (r: Result<Binder<V, R>, BuildError>)
    requires |args| == fn.arity && HasPlaceholder(args)
    ensures r.Ok? <==> !(HasGeneric(args) && HasNumbered(args))
    ensures r.Err? ==> r.error == MixedPlaceholders
    ensures r.Ok? ==> r.value.f == fn && |r.value.args| == |args|
    ensures !HasGeneric(args) ==> r == Ok(Binder(fn, args))
    ensures r.Ok? ==> forall j :: 0 <= j < |args| && args[j].Val? ==> r.value.args[j] == args[j]
    ensures r.Ok? && HasGeneric(args) ==> Indexed(r.value.args, CountGeneric(args))
    ensures r.Ok? && HasGeneric(args) ==> forall j :: 0 <= j < |args| && args[j].PH? ==>
              r.value.args[j] == PH(1 + CountGeneric(args[..j]))
  {
    if HasGeneric(args) then
      match Translate(args, 1)
      case Err(e) => Err(e)
      case Ok(translated) => Ok(Binder(fn, translated))
    else
      Ok(Binder(fn, args))
  }

  /** Binder::ArgMap::map: a bound value passes through, PlaceHolder<i> takes call argument i (1-based). */
  function MapArg<V>(arg: BindArg<V>, callArgs: seq<V>): V
    requires arg.PH? ==> 1 <= arg.index <= |callArgs|
  {
    match arg
    case Val(v) => v
    case PH(i) => callArgs[i - 1]
  }

  /** The pack expansion of Binder::invoke: map every bound slot, in slot order. */
  function Substitute<V>(bound: seq<BindArg<V>>, callArgs: seq<V>): (r: seq<V>)
    requires Indexed(bound, |callArgs|)
    ensures |r| == |bound|
    ensures forall j :: 0 <= j < |bound| && bound[j].Val? ==> r[j] == bound[j].v
    ensures forall j :: 0 <= j < |bound| && bound[j].PH? ==> r[j] == callArgs[bound[j].index - 1]
  {
    seq(|bound|, j requires 0 <= j < |bound| => MapArg(bound[j], callArgs))
  }

  /** A Binder ready to be called: over a well-formed Function, one slot per parameter, no generic placeholder left. */
  ghost predicate Ready<V(!new), R>(b: Binder<V, R>, n: nat) {
    WellFormed(b.f) && |b.args| == b.f.arity && Indexed(b.args, n)
  }

  /** Binder::operator()(CallArgs...): call the wrapped Function on the substituted slots. */
  function BinderCall<V(!new), R>(b: Binder<V, R>, callArgs: seq<V>): Result<R, Error>
    requires Ready(b, |callArgs|)
  {
    Call(b.f, Substitute(b.args, callArgs))
  }

  /** Function(F&& f) with F a Binder: the Binder seen as a Function of the declared arity. */
  function FromBinder<V(!new), R>(b: Binder<V, R>, arity: nat): (fn: Function<V, R>)
    requires Ready(b, arity)
    ensures WellFormed(fn) && fn.arity == arity && fn.pf.Some?
  {
    FromCallable((a: seq<V>) requires |a| == arity => BinderCall(b, a), arity)
  }

  /** Calling a bound Function calls the original Function with slot j replaced as ArgMap::map says. */
  lemma CallBinder<V(!new), R>(b: Binder<V, R>, arity: nat, callArgs: seq<V>)
    requires Ready(b, arity) && |callArgs| == arity
    ensures var s := Substitute(b.args, callArgs);
      && |s| == |b.args|
      && (forall j :: 0 <= j < |s| ==> s[j] == MapArg(b.args[j], callArgs))
      && Call(FromBinder(b, arity), callArgs) == Call(b.f, s)
  {
  }

  /**
   * Binding a plain callable and calling the result equals calling the callable
   * directly with the call arguments plugged into the placeholder slots.
   */
  lemma CallBoundLifted<V(!new), R>(g: seq<V> --> R, args: seq<BindArg<V>>, arity: nat, callArgs: seq<V>)
    requires forall a: seq<V> :: |a| == |args| ==> g.requires(a)
    requires HasPlaceholder(args) && !(HasGeneric(args) && HasNumbered(args))
    requires Indexed(Bind(Lift(g, |args|), args).value.args, arity) && |callArgs| == arity
    ensures var b := Bind(Lift(g, |args|), args).value;
      Call(FromBinder(b, arity), callArgs) == Ok(g(Substitute(b.args, callArgs)))
  {
  }

  /** The generic renumbering leaves no PlaceHolder<0> and numbers the k-th `_` (from 1) as PlaceHolder<k>. */
  lemma TranslateNumbersGeneric<V>(args: seq<BindArg<V>>)
    requires !HasNumbered(args)
    ensures Translate(args, 1).Ok?
    ensures var r := Translate(args, 1).value;
      && Indexed(r, CountGeneric(args))
      && !HasGeneric(r)
      && (forall j :: 0 <= j < |args| && args[j].PH? ==> r[j].index == 1 + CountGeneric(args[..j]))
  {
  }

  /** A list with numbered placeholders only is kept verbatim; mixing `_` with a numbered one is rejected. */
  lemma BindNumberedVerbatim<V(!new), R>(fn: Function<V, R>, args: seq<BindArg<V>>)
    requires |args| == fn.arity && HasPlaceholder(args)
    ensures !HasGeneric(args) ==> Bind(fn, args) == Ok(Binder(fn, args))
    ensures HasGeneric(args) && HasNumbered(args) ==> Bind(fn, args) == Err(MixedPlaceholders)
  {
  }

  // ---------------------------------------------------------------------------
  // Re-binding a Binder wrapped as a Function
  // ---------------------------------------------------------------------------

  /** The slots of outer with every placeholder replaced by the inner slot it names. */
  function ComposeArgs<V>(outer: seq<BindArg<V>>, inner: seq<BindArg<V>>): (r: seq<BindArg<V>>)
    requires Indexed(outer, |inner|)
    ensures |r| == |outer|
    ensures forall j :: 0 <= j < |outer| && outer[j].Val? ==> r[j] == outer[j]
    ensures forall j :: 0 <= j < |outer| && outer[j].PH? ==> r[j] == inner[outer[j].index - 1]
  {
    seq(|outer|, j requires 0 <= j < |outer| => if outer[j].Val? then outer[j] else inner[outer[j].index - 1])
  }

  /** Substituting in two stages equals substituting once through the composed slots. */
  lemma {:induction false} SubstituteTwice<V>(outer: seq<BindArg<V>>, inner: seq<BindArg<V>>, callArgs: seq<V>)
    requires Indexed(outer, |inner|) && Indexed(inner, |callArgs|)
    ensures Indexed(ComposeArgs(outer, inner), |callArgs|)
    ensures Substitute(outer, Substitute(inner, callArgs)) == Substitute(ComposeArgs(outer, inner), callArgs)
  {
    var c := ComposeArgs(outer, inner);
    forall j | 0 <= j < |c| && c[j].PH?
      ensures 1 <= c[j].index <= |callArgs|
    {
      assert c[j] == inner[outer[j].index - 1];
    }
    var lhs := Substitute(outer, Substitute(inner, callArgs));
    var rhs := Substitute(c, callArgs);
    forall j | 0 <= j < |outer|
      ensures lhs[j] == rhs[j]
    {
      if outer[j].PH? {
        var k := outer[j].index - 1;
        assert c[j] == inner[k];
        if inner[k].PH? {
          assert lhs[j] == callArgs[inner[k].index - 1];
        }
      }
    }
  }

  /**
   * Re-binding: binding the wrapper of a Binder yields a Binder whose
   * placeholders index the new call only; calling it equals one call of the
   * original Function through the composed slots, so the earlier bindings are
   * baked in.
   */
  lemma CallRebound<V(!new), R>(b1: Binder<V, R>, k1: nat, args2: seq<BindArg<V>>, k2: nat, callArgs: seq<V>)
    requires Ready(b1, k1)
    requires |args2| == k1 && HasPlaceholder(args2)
    requires Bind(FromBinder(b1, k1), args2).Ok?
    requires Indexed(Bind(FromBinder(b1, k1), args2).value.args, k2) && |callArgs| == k2
    ensures var b2 := Bind(FromBinder(b1, k1), args2).value;
      && Indexed(ComposeArgs(b1.args, b2.args), k2)
      && Call(FromBinder(b2, k2), callArgs) == Call(b1.f, Substitute(ComposeArgs(b1.args, b2.args), callArgs))
  {
    var b2 := Bind(FromBinder(b1, k1), args2).value;
    SubstituteTwice(b1.args, b2.args, callArgs);
  }

  // ---------------------------------------------------------------------------
  // Composition
  // ---------------------------------------------------------------------------

  /** The lambda of the single operator*: call rhs, then hand its value to lhs. */
  function Chain<V(!new), M(!new), R>(lhs: Function<M, R>, rhs: Function<V, M>, args: seq<V>): Result<R, Error>
    requires WellFormed(lhs) && WellFormed(rhs) && lhs.arity == 1 && |args| == rhs.arity
  {
    match Call(rhs, args)
    case Err(e) => Err(e)
    case Ok(y) => Call(lhs, [y])
  }

  /** operator*(Function<R2(R1)>, Function<R1(Args...)>): a Function with rhs's parameters and lhs's result. */
  function Compose<V(!new), M(!new), R>(lhs: Function<M, R>, rhs: Function<V, M>): (fn: Function<V, R>)
    requires WellFormed(lhs) && WellFormed(rhs) && lhs.arity == 1
    ensures WellFormed(fn) && fn.arity == rhs.arity && fn.pf.Some?
  {
    FromCallable((a: seq<V>) requires |a| == rhs.arity => Chain(lhs, rhs, a), rhs.arity)
  }

  /** (lhs * rhs)(args) == lhs(rhs(args)); a failure of rhs is passed on and lhs is not called. */
  lemma CallCompose<V(!new), M(!new), R>(lhs: Function<M, R>, rhs: Function<V, M>, args: seq<V>)
    requires WellFormed(lhs) && WellFormed(rhs) && lhs.arity == 1 && |args| == rhs.arity
    ensures Call(rhs, args).Err? ==> Call(Compose(lhs, rhs), args) == Err(Call(rhs, args).error)
    ensures Call(rhs, args).Ok? ==> Call(Compose(lhs, rhs), args) == Call(lhs, [Call(rhs, args).value])
  {
  }

  /** Composition of two wrapped plain callables is their composition as functions. */
  lemma CallComposeLifted<V(!new), M(!new), R>(g: seq<M> --> R, h: seq<V> --> M, arity: nat, args: seq<V>)
    requires forall a: seq<M> :: |a| == 1 ==> g.requires(a)
    requires forall a: seq<V> :: |a| == arity ==> h.requires(a)
    requires |args| == arity
    ensures Call(Compose(Lift(g, 1), Lift(h, arity)), args) == Ok(g([h(args)]))
  {
  }

  /** rhs returns tuples of exactly k elements (std::tuple<R1s...> with sizeof...(R1s) == k). */
  ghost predicate YieldsTuples<V(!new), M>(rhs: Function<V, seq<M>>, k: nat) {
    WellFormed(rhs) &&
    forall a: seq<V> :: |a| == rhs.arity && Call(rhs, a).Ok? ==> |Call(rhs, a).value| == k
  }

  /** apply(f, t, index_sequence): call f with the elements of the tuple t spread positionally. */
  function Apply<M(!new), R>(f: Function<M, R>, t: seq<M>): Result<R, Error>
    requires WellFormed(f) && |t| == f.arity
  {
    Call(f, t)
  }

  /** The lambda of the spreading operator*: call rhs, then spread its tuple over lhs's parameters. */
  function ChainSpread<V(!new), M(!new), R>(lhs: Function<M, R>, rhs: Function<V, seq<M>>, args: seq<V>): Result<R, Error>
    requires WellFormed(lhs) && YieldsTuples(rhs, lhs.arity) && |args| == rhs.arity
  {
    match Call(rhs, args)
    case Err(e) => Err(e)
    case Ok(t) => Apply(lhs, t)
  }

  /** operator*(Function<R2(R1s...)>, Function<std::tuple<R1s...>(Args...)>). */
  function ComposeSpread<V(!new), M(!new), R>(lhs: Function<M, R>, rhs: Function<V, seq<M>>): (fn: Function<V, R>)
    requires WellFormed(lhs) && YieldsTuples(rhs, lhs.arity)
    ensures WellFormed(fn) && fn.arity == rhs.arity && fn.pf.Some?
  {
    FromCallable((a: seq<V>) requires |a| == rhs.arity => ChainSpread(lhs, rhs, a), rhs.arity)
  }

  /** (lhs * rhs)(args) is lhs applied to the elements of rhs(args) in order. */
  lemma CallComposeSpread<V(!new), M(!new), R>(lhs: Function<M, R>, rhs: Function<V, seq<M>>, args: seq<V>)
    requires WellFormed(lhs) && YieldsTuples(rhs, lhs.arity) && |args| == rhs.arity
    ensures Call(rhs, args).Err? ==> Call(ComposeSpread(lhs, rhs), args) == Err(Call(rhs, args).error)
    ensures Call(rhs, args).Ok? ==>
              && |Call(rhs, args).value| == lhs.arity
              && Call(ComposeSpread(lhs, rhs), args) == Call(lhs, Call(rhs, args).value)
  {
    if Call(rhs, args).Ok? {
      var t := Call(rhs, args).value;
      assert seq(|t|, i requires 0 <= i < |t| => t[i]) == t;
    }
  }
}
