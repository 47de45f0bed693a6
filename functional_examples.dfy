/**
 * The binding and composition cases that assignment/main.cpp asserts, stated
 * over the model of assignment/function.hpp with int arguments.
 */
module FunctionalExamples {
  import opened Functional

  function Minus(): Function<int, int> {
    Lift((a: seq<int>) requires |a| == 2 => a[0] - a[1], 2)
  }

  function Less(): Function<int, bool> {
    Lift((a: seq<int>) requires |a| == 2 => a[0] < a[1], 2)
  }

  function Sum4(): Function<int, int> {
    Lift((a: seq<int>) requires |a| == 4 => a[0] + a[1] + a[2] + a[3], 4)
  }

  function Add(): Function<int, int> {
    Lift((a: seq<int>) requires |a| == 2 => a[0] + a[1], 2)
  }

  function Square(): Function<int, int> {
    Lift((a: seq<int>) requires |a| == 1 => a[0] * a[0], 1)
  }

  /** Calling a binding of minus: the first mapped slot minus the second. */
  lemma CallMinusBinder(bound: seq<BindArg<int>>, n: nat, callArgs: seq<int>)
    requires |bound| == 2 && Indexed(bound, n) && |callArgs| == n
    ensures Call(FromBinder(Binder(Minus(), bound), n), callArgs)
            == Ok(MapArg(bound[0], callArgs) - MapArg(bound[1], callArgs))
  {
    CallBinder(Binder(Minus(), bound), n, callArgs);
  }

  /** minus(42, _)(20) == 22 */
  lemma BindValueThenGeneric()
    ensures HasPlaceholder([Val(42), PH(0)])
    ensures Bind(Minus(), [Val(42), PH(0)]) == Ok(Binder(Minus(), [Val(42), PH(1)]))
    ensures Call(FromBinder(Binder(Minus(), [Val(42), PH(1)]), 1), [20]) == Ok(22)
  {
    assert [Val(42), PH(0)][1].PH?;
    assert CountGeneric([Val(42), PH(0)][..1]) == 0;
    assert IsGeneric([Val(42), PH(0)][1]);
    var r := Bind(Minus(), [Val(42), PH(0)]).value.args;
    assert r[0] == Val(42) && r[1] == PH(1);
    assert r == [Val(42), PH(1)];
    CallMinusBinder([Val(42), PH(1)], 1, [20]);
  }

  /** minus(_, 42)(56) == 14 */
  lemma BindGenericThenValue()
    ensures HasPlaceholder([PH(0), Val(42)])
    ensures Bind(Minus(), [PH(0), Val(42)]) == Ok(Binder(Minus(), [PH(1), Val(42)]))
    ensures Call(FromBinder(Binder(Minus(), [PH(1), Val(42)]), 1), [56]) == Ok(14)
  {
    assert [PH(0), Val(42)][0].PH?;
    assert CountGeneric([PH(0), Val(42)][..0]) == 0;
    assert IsGeneric([PH(0), Val(42)][0]);
    var r := Bind(Minus(), [PH(0), Val(42)]).value.args;
    assert r[0] == PH(1) && r[1] == Val(42);
    assert r == [PH(1), Val(42)];
    CallMinusBinder([PH(1), Val(42)], 1, [56]);
  }

  /** minus(_, _)(50, 15) == 35: two generic placeholders become _1 and _2. */
  lemma BindTwoGeneric()
    ensures HasPlaceholder<int>([PH(0), PH(0)])
    ensures Bind(Minus(), [PH(0), PH(0)]) == Ok(Binder(Minus(), [PH(1), PH(2)]))
    ensures Call(FromBinder(Binder(Minus(), [PH(1), PH(2)]), 2), [50, 15]) == Ok(35)
  {
    var args: seq<BindArg<int>> := [PH(0), PH(0)];
    assert args[0].PH?;
    assert CountGeneric(args[..0]) == 0;
    assert CountGeneric(args[..1]) == 1;
    assert IsGeneric(args[0]);
    var r := Bind(Minus(), args).value.args;
    assert r[0] == PH(1) && r[1] == PH(2);
    assert r == [PH(1), PH(2)];
    CallMinusBinder([PH(1), PH(2)], 2, [50, 15]);
  }

  /** less(_2, _1)(5, 3) == less(3, 5) == true */
  lemma BindReordered()
    ensures HasPlaceholder<int>([PH(2), PH(1)])
    ensures Bind(Less(), [PH(2), PH(1)]) == Ok(Binder(Less(), [PH(2), PH(1)]))
    ensures Call(FromBinder(Binder(Less(), [PH(2), PH(1)]), 2), [5, 3]) == Ok(true)
  {
    var args: seq<BindArg<int>> := [PH(2), PH(1)];
    assert args[0].PH?;
    var b := Binder(Less(), [PH(2), PH(1)]);
    CallBinder(b, 2, [5, 3]);
    assert Substitute(b.args, [5, 3]) == [3, 5];
  }

  /** sum3 = sum4(_1, 2000, _3, _2): numbered placeholders only, so the list is kept verbatim. */
  function Sum3(): Function<int, int> {
    FromBinder(Binder(Sum4(), [PH(1), Val(2000), PH(3), PH(2)]), 3)
  }

  /** sum2 = sum3(200, _2, _1) */
  function Sum2(): Function<int, int> {
    FromBinder(Binder(Sum3(), [Val(200), PH(2), PH(1)]), 2)
  }

  /** sum1 = sum2(_, 20), the generic placeholder renumbered to _1 */
  function Sum1(): Function<int, int> {
    FromBinder(Binder(Sum2(), [PH(1), Val(20)]), 1)
  }

  /** The three binding calls of the chain build exactly the Binders above. */
  lemma RebindChainBinders()
    ensures HasPlaceholder<int>([PH(1), Val(2000), PH(3), PH(2)])
    ensures HasPlaceholder<int>([Val(200), PH(2), PH(1)])
    ensures HasPlaceholder<int>([PH(0), Val(20)])
    ensures Bind(Sum4(), [PH(1), Val(2000), PH(3), PH(2)]) == Ok(Binder(Sum4(), [PH(1), Val(2000), PH(3), PH(2)]))
    ensures Bind(Sum3(), [Val(200), PH(2), PH(1)]) == Ok(Binder(Sum3(), [Val(200), PH(2), PH(1)]))
    ensures Bind(Sum2(), [PH(0), Val(20)]) == Ok(Binder(Sum2(), [PH(1), Val(20)]))
  {
    BindNumberedArgs();
    BindGenericArgs();
  }

  /** The numbered lists of sum3 and sum2 are kept verbatim. */
  lemma BindNumberedArgs()
    ensures HasPlaceholder<int>([PH(1), Val(2000), PH(3), PH(2)])
    ensures HasPlaceholder<int>([Val(200), PH(2), PH(1)])
    ensures Bind(Sum4(), [PH(1), Val(2000), PH(3), PH(2)]) == Ok(Binder(Sum4(), [PH(1), Val(2000), PH(3), PH(2)]))
    ensures Bind(Sum3(), [Val(200), PH(2), PH(1)]) == Ok(Binder(Sum3(), [Val(200), PH(2), PH(1)]))
  {
    var a4: seq<BindArg<int>> := [PH(1), Val(2000), PH(3), PH(2)];
    var a3: seq<BindArg<int>> := [Val(200), PH(2), PH(1)];
    assert a4[0].PH? && a3[1].PH?;
    assert IsNumbered(a4[0]);
  }

  /** The generic list of sum1 is renumbered from 1. */
  lemma BindGenericArgs()
    ensures HasPlaceholder<int>([PH(0), Val(20)])
    ensures Bind(Sum2(), [PH(0), Val(20)]) == Ok(Binder(Sum2(), [PH(1), Val(20)]))
  {
    var a2: seq<BindArg<int>> := [PH(0), Val(20)];
    assert a2[0].PH? && IsGeneric(a2[0]);
    assert CountGeneric(a2[..0]) == 0;
    var r := Bind(Sum2(), a2).value.args;
    assert r[0] == PH(1) && r[1] == Val(20);
    assert r == [PH(1), Val(20)];
  }

  lemma CallSum3(x: int, y: int, z: int)
    ensures Call(Sum3(), [x, y, z]) == Ok(x + 2000 + z + y)
  {
    var b := Binder(Sum4(), [PH(1), Val(2000), PH(3), PH(2)]);
    CallBinder(b, 3, [x, y, z]);
    assert Substitute(b.args, [x, y, z]) == [x, 2000, z, y];
  }

  lemma CallSum2(x: int, y: int)
    ensures Call(Sum2(), [x, y]) == Ok(200 + 2000 + x + y)
  {
    var b := Binder(Sum3(), [Val(200), PH(2), PH(1)]);
    CallBinder(b, 2, [x, y]);
    assert Substitute(b.args, [x, y]) == [200, y, x];
    CallSum3(200, y, x);
  }

  /** sum1(2) == 2222 */
  lemma CallSum1()
    ensures Call(Sum1(), [2]) == Ok(2222)
  {
    var b := Binder(Sum2(), [PH(1), Val(20)]);
    CallBinder(b, 1, [2]);
    assert Substitute(b.args, [2]) == [2, 20];
    CallSum2(2, 20);
  }

  /** (square * add)(1, 2) == (1 + 2) * (1 + 2) */
  lemma ComposeSquareAdd()
    ensures Call(Compose(Square(), Add()), [1, 2]) == Ok(9)
  {
    CallCompose(Square(), Add(), [1, 2]);
  }

  /** The elements of the tuple that div returns: an int or a C string. */
  datatype Piece = Num(n: int) | Text(s: string)

  function Digits(n: nat): string
    decreases n
  {
    (if n < 10 then "" else Digits(n / 10)) + ["0123456789"[n % 10]]
  }

  /** The text `ss << piece` writes. */
  function Render(p: Piece): string {
    match p
    case Num(n) => if n < 0 then "-" + Digits(-n) else Digits(n)
    case Text(s) => s
  }

  /** The arguments of the test's div; both are positive there, so C++ and Dafny division agree. */
  type Positive = x: int | x > 0 witness 1

  /** div(x, r) == make_tuple(x / r, "...", x % r) */
  function Div(): Function<Positive, seq<Piece>> {
    Lift((a: seq<Positive>) requires |a| == 2 => [Num(a[0] as int / a[1] as int), Text("..."), Num(a[0] as int % a[1] as int)], 2)
  }

  /** toString(s...) streams every argument into one string, in order. */
  function ToString(): Function<Piece, string> {
    Lift((a: seq<Piece>) requires |a| == 3 => Render(a[0]) + Render(a[1]) + Render(a[2]), 3)
  }

  /** div always returns a 3-tuple. */
  lemma DivYieldsTriples()
    ensures YieldsTuples(Div(), 3)
  {
    forall a: seq<Positive> | |a| == 2 && Call(Div(), a).Ok?
      ensures |Call(Div(), a).value| == 3
    {
      CallLifted((a: seq<Positive>) requires |a| == 2 => [Num(a[0] as int / a[1] as int), Text("..."), Num(a[0] as int % a[1] as int)], 2, a);
    }
  }

  lemma RenderQuotient()
    ensures Render(Num(17)) + Render(Text("...")) + Render(Num(4)) == "17...4"
  {
    assert Digits(1) == "1";
    assert Digits(17) == "17";
    assert Digits(4) == "4";
  }

  lemma CallDiv()
    ensures Call(Div(), [123, 7]) == Ok([Num(17), Text("..."), Num(4)])
  {
    var args: seq<Positive> := [123, 7];
    CallLifted((a: seq<Positive>) requires |a| == 2 => [Num(a[0] as int / a[1] as int), Text("..."), Num(a[0] as int % a[1] as int)], 2, args);
  }

  /** (toString * div)(123, 7) == "17...4" */
  lemma ComposeSpreadDiv()
    ensures YieldsTuples(Div(), 3)
    ensures Call(ComposeSpread(ToString(), Div()), [123, 7]) == Ok("17...4")
  {
    DivYieldsTriples();
    var args: seq<Positive> := [123, 7];
    CallDiv();
    CallComposeSpread(ToString(), Div(), args);
    var t := [Num(17), Text("..."), Num(4)];
    CallLifted((a: seq<Piece>) requires |a| == 3 => Render(a[0]) + Render(a[1]) + Render(a[2]), 3, t);
    RenderQuotient();
  }
}
