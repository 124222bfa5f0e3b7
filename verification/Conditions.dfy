/** The condition evaluator of the DAG engine (src/platform/dag_engine.py,
    _safe_eval_condition and _eval_node) against Python's own evaluation rules. */
module Conditions {

  import opened Prelude

  /** Values a context can hold: what JSON can write. `Num` covers int and float. */
  datatype Value = Null | Bool(b: bool) | Num(r: real) | Str(s: string)
                 | List(xs: seq<Value>) | Dict(m: map<string, Value>)

  datatype CmpOp = Eq | NotEq | Lt | LtE | Gt | GtE | In | NotIn | OtherCmp

  datatype BoolOp = And | Or

  datatype UnOp = Not | UAdd | USub | Invert

  /** The expression trees that ast.parse yields; every node class the evaluator has no
      branch for is `Unsupported`, and constants outside its list are `OtherConst`. */
  datatype Expr =
    | Const(v: Value)
    | OtherConst
    | Name(id: string)
    | Compare(left: Expr, ops: seq<CmpOp>, comparators: seq<Expr>)
    | Bools(bop: BoolOp, values: seq<Expr>)
    | Unary(uop: UnOp, operand: Expr)
    | Attribute(obj: Expr, attr: string)
    | Unsupported

  type Env = map<string, Value>

  // ---- Python's operations on values ----

  predicate Truthy(v: Value) {
    match v
    case Null => false
    case Bool(b) => b
    case Num(r) => r != 0.0
    case Str(s) => s != ""
    case List(xs) => xs != []
    case Dict(m) => m != map[]
  }

  predicate IsNumeric(v: Value) { v.Bool? || v.Num? }

  function AsNum(v: Value): real
    requires IsNumeric(v)
  {
    match v
    case Bool(b) => if b then 1.0 else 0.0
    case Num(r) => r
  }

  /** `==`: numbers and booleans compare by numeric value, containers elementwise. */
  predicate PyEq(a: Value, b: Value) {
    if IsNumeric(a) && IsNumeric(b) then AsNum(a) == AsNum(b)
    else match (a, b)
      case (List(xs), List(ys)) => |xs| == |ys| && forall i :: 0 <= i < |xs| ==> PyEq(xs[i], ys[i])
      case (Dict(m), Dict(n)) => m.Keys == n.Keys && forall k :: k in m ==> PyEq(m[k], n[k])
      case _ => a == b
  }

  predicate OrderHolds(op: CmpOp, less: bool, same: bool) {
    match op
    case Lt => less
    case LtE => less || same
    case Gt => !less && !same
    case GtE => !less
    case _ => false
  }

  /** `<`, `<=`, `>`, `>=`; a TypeError is Err. Lists compare at the first difference. */
  function Order(op: CmpOp, a: Value, b: Value): Result<bool>
    decreases a, 1
  {
    if IsNumeric(a) && IsNumeric(b) then Ok(OrderHolds(op, AsNum(a) < AsNum(b), AsNum(a) == AsNum(b)))
    else match (a, b)
      case (Str(s), Str(t)) => Ok(OrderHolds(op, StrLess(s, t), s == t))
      case (List(xs), List(ys)) => ListOrder(op, a, xs, ys)
      case _ => Err
  }

  function ListOrder(op: CmpOp, ghost a: Value, xs: seq<Value>, ys: seq<Value>): Result<bool>
    requires a.List? && |xs| <= |a.xs| && xs == a.xs[|a.xs| - |xs|..]
    decreases a, 0, |xs|
  {
    if xs == [] || ys == [] then Ok(OrderHolds(op, |xs| < |ys|, |xs| == |ys|))
    else if PyEq(xs[0], ys[0]) then ListOrder(op, a, xs[1..], ys[1..])
    else Order(op, xs[0], ys[0])
  }

  /** `in`; a TypeError (not a container, unhashable key, non-string in string) is Err. */
  function Member(a: Value, b: Value): Result<bool> {
    match b
    case Str(t) => if a.Str? then Ok(Contains(t, a.s)) else Err
    case List(ys) => Ok(exists i :: 0 <= i < |ys| && PyEq(a, ys[i]))
    case Dict(m) => if a.List? || a.Dict? then Err else Ok(a.Str? && a.s in m)
    case _ => Err
  }

  predicate Contains(t: string, s: string) {
    s <= t || (t != "" && Contains(t[1..], s))
  }

  /** One link of a comparison, with membership in a non-container taken as false. */
  function CompareValues(op: CmpOp, a: Value, b: Value): Result<bool> {
    match op
    case Eq => Ok(PyEq(a, b))
    case NotEq => Ok(!PyEq(a, b))
    case In => Ok(Member(a, b) == Ok(true))
    case NotIn => Ok(Member(a, b) == Ok(false))
    case OtherCmp => Err
    case _ => Order(op, a, b)
  }

  // ---- Laws of the comparisons ----

  lemma {:induction false} PyEqSymmetric(a: Value, b: Value)
    ensures PyEq(a, b) == PyEq(b, a)
  {
    match (a, b)
    case (List(xs), List(ys)) =>
      if |xs| == |ys| {
        forall i | 0 <= i < |xs| ensures PyEq(xs[i], ys[i]) == PyEq(ys[i], xs[i]) { PyEqSymmetric(xs[i], ys[i]); }
      }
    case (Dict(m), Dict(n)) =>
      if m.Keys == n.Keys {
        forall k | k in m ensures PyEq(m[k], n[k]) == PyEq(n[k], m[k]) { PyEqSymmetric(m[k], n[k]); }
      }
    case _ =>
  }

  predicate IsOrdering(op: CmpOp) { op.Lt? || op.LtE? || op.Gt? || op.GtE? }

  function Mirror(op: CmpOp): CmpOp {
    match op
    case Lt => Gt
    case LtE => GtE
    case Gt => Lt
    case GtE => LtE
    case _ => op
  }

  /** a < b is b > a, a <= b is b >= a, also where they fail, on all values. */
  lemma {:induction false} OrderMirrors(op: CmpOp, a: Value, b: Value)
    requires IsOrdering(op)
    ensures Order(op, a, b) == Order(Mirror(op), b, a)
    decreases a, 1
  {
    if a.Str? && b.Str? {
      StrLessTotal(a.s, b.s);
      HoldsMirrors(op, StrLess(a.s, b.s), StrLess(b.s, a.s), a.s == b.s);
    } else if a.List? && b.List? {
      ListOrderMirrors(op, a, b, a.xs, b.xs);
    } else if IsNumeric(a) && IsNumeric(b) {
      HoldsMirrors(op, AsNum(a) < AsNum(b), AsNum(b) < AsNum(a), AsNum(a) == AsNum(b));
    }
  }

  lemma HoldsMirrors(op: CmpOp, less: bool, more: bool, same: bool)
    requires IsOrdering(op) && (less || same || more) && !(less && more) && (same ==> !less && !more)
    ensures OrderHolds(op, less, same) == OrderHolds(Mirror(op), more, same)
  {
  }

  lemma {:induction false} ListOrderMirrors(op: CmpOp, a: Value, b: Value, xs: seq<Value>, ys: seq<Value>)
    requires IsOrdering(op)
    requires a.List? && |xs| <= |a.xs| && xs == a.xs[|a.xs| - |xs|..]
    requires b.List? && |ys| <= |b.xs| && ys == b.xs[|b.xs| - |ys|..]
    ensures ListOrder(op, a, xs, ys) == ListOrder(Mirror(op), b, ys, xs)
    decreases a, 0, |xs|
  {
    if xs != [] && ys != [] {
      PyEqSymmetric(xs[0], ys[0]);
      if PyEq(xs[0], ys[0]) {
        ListOrderMirrors(op, a, b, xs[1..], ys[1..]);
      } else {
        assert xs[0] in a.xs;
        OrderMirrors(op, xs[0], ys[0]);
      }
    }
  }

  /** The operator that holds where op does not. */
  function Negate(op: CmpOp): CmpOp {
    match op
    case Eq => NotEq
    case NotEq => Eq
    case Lt => GtE
    case GtE => Lt
    case LtE => Gt
    case Gt => LtE
    case In => NotIn
    case NotIn => In
    case OtherCmp => OtherCmp
  }

  function Negated(r: Result<bool>): Result<bool> { match r case Ok(b) => Ok(!b) case Err => Err }

  /** Of an ordering and its negation exactly one holds, or both fail, on all values. */
  lemma {:induction false} OrderComplements(op: CmpOp, a: Value, b: Value)
    requires IsOrdering(op)
    ensures Order(Negate(op), a, b) == Negated(Order(op, a, b))
    decreases a, 1
  {
    if a.List? && b.List? {
      ListOrderComplements(op, a, a.xs, b.xs);
    } else if a.Str? && b.Str? {
      StrLessTotal(a.s, b.s);
    }
  }

  lemma {:induction false} ListOrderComplements(op: CmpOp, a: Value, xs: seq<Value>, ys: seq<Value>)
    requires IsOrdering(op) && a.List? && |xs| <= |a.xs| && xs == a.xs[|a.xs| - |xs|..]
    ensures ListOrder(Negate(op), a, xs, ys) == Negated(ListOrder(op, a, xs, ys))
    decreases a, 0, |xs|
  {
    if xs != [] && ys != [] {
      if PyEq(xs[0], ys[0]) {
        ListOrderComplements(op, a, xs[1..], ys[1..]);
      } else {
        assert xs[0] in a.xs;
        OrderComplements(op, xs[0], ys[0]);
      }
    }
  }

  function ApplyUnary(op: UnOp, v: Value): Result<Value> {
    match op
    case Not => Ok(Bool(!Truthy(v)))
    case UAdd => if IsNumeric(v) then Ok(Num(AsNum(v))) else Err
    case USub => if IsNumeric(v) then Ok(Num(-AsNum(v))) else Err
    case Invert => Err
  }

  function GetAttr(v: Value, attr: string): Result<Value> {
    if !v.Dict? then Err else if attr in v.m then Ok(v.m[attr]) else Ok(Null)
  }

  function Lookup(env: Env, id: string): Value {
    if id in env then env[id] else Null
  }

  // ---- The evaluator: every operand is evaluated, errors win ----

  function Eval(e: Expr, env: Env): Result<Value> {
    match e
    case Const(v) => Ok(v)
    case OtherConst => Ok(Null)
    case Name(id) => Ok(Lookup(env, id))
    case Compare(left, ops, rights) =>
      (match Eval(left, env) case Err => Err case Ok(l) => EvalLinks(l, true, ops, rights, env))
    case Bools(op, values) =>
      (match EvalAll(values, env)
       case Err => Err
       case Ok(vs) => Ok(Bool(if op.And? then forall i :: 0 <= i < |vs| ==> Truthy(vs[i])
                              else exists i :: 0 <= i < |vs| && Truthy(vs[i]))))
    case Unary(op, x) => (match Eval(x, env) case Err => Err case Ok(v) => ApplyUnary(op, v))
    case Attribute(x, attr) => (match Eval(x, env) case Err => Err case Ok(v) => GetAttr(v, attr))
    case Unsupported => Err
  }

  function EvalAll(es: seq<Expr>, env: Env): (r: Result<seq<Value>>)
    ensures r.Ok? ==> |r.value| == |es|
  {
    if es == [] then Ok([])
    else match Eval(es[0], env)
      case Err => Err
      case Ok(v) => match EvalAll(es[1..], env) case Err => Err case Ok(vs) => Ok([v] + vs)
  }

  /** The comparison chain: once the flag is false no comparison is applied any more,
      but every right-hand side is still evaluated and unknown operators still fail. */
  function EvalLinks(left: Value, flag: bool, ops: seq<CmpOp>, rights: seq<Expr>, env: Env): Result<Value>
    decreases rights
  {
    if ops == [] || rights == [] then Ok(Bool(flag))
    else match Eval(rights[0], env)
      case Err => Err
      case Ok(r) =>
        if ops[0].OtherCmp? then Err
        else if !flag then EvalLinks(r, false, ops[1..], rights[1..], env)
        else match CompareValues(ops[0], left, r)
          case Err => Err
          case Ok(c) => EvalLinks(r, c, ops[1..], rights[1..], env)
  }

  /** Fail-open wrapper: `parsed` is None when the text does not parse. */
  function SafeEval(parsed: Option<Expr>, context: Env, input: Env): bool {
    match parsed
    case None => true
    case Some(e) => match Eval(e, context + input) case Err => true case Ok(v) => Truthy(v)
  }

  // ---- Rewriting conditions ----

  /** A single comparison of two evaluated sides. */
  function Linked(op: CmpOp, l: Result<Value>, r: Result<Value>): Result<bool> {
    if l.Err? || r.Err? then Err else CompareValues(op, l.value, r.value)
  }

  function AsValue(r: Result<bool>): Result<Value> { match r case Ok(b) => Ok(Bool(b)) case Err => Err }

  lemma OneLink(l: Expr, op: CmpOp, r: Expr, env: Env)
    ensures Eval(Compare(l, [op], [r]), env) == AsValue(Linked(op, Eval(l, env), Eval(r, env)))
  {
    if Eval(l, env).Ok? && Eval(r, env).Ok? && !op.OtherCmp? {
      var c := CompareValues(op, Eval(l, env).value, Eval(r, env).value);
      assert [op][1..] == [] && [r][1..] == [];
      if c.Ok? { assert EvalLinks(Eval(r, env).value, c.value, [op][1..], [r][1..], env) == Ok(Bool(c.value)); }
    }
  }

  /** The two sides of a comparison can be swapped with the operator mirrored, whatever the
      expressions, errors included. */
  lemma SidesSwap(l: Expr, op: CmpOp, r: Expr, env: Env)
    requires !op.In? && !op.NotIn?
    ensures Eval(Compare(l, [op], [r]), env) == Eval(Compare(r, [Mirror(op)], [l]), env)
  {
    OneLink(l, op, r, env);
    OneLink(r, Mirror(op), l, env);
    if Eval(l, env).Ok? && Eval(r, env).Ok? {
      PyEqSymmetric(Eval(l, env).value, Eval(r, env).value);
      if IsOrdering(op) { OrderMirrors(op, Eval(l, env).value, Eval(r, env).value); }
    }
  }

  /** A membership test of a value that contains nothing. */
  predicate TestsNoContainer(op: CmpOp, l: Result<Value>, r: Result<Value>) {
    (op.In? || op.NotIn?) && l.Ok? && r.Ok? && Member(l.value, r.value).Err?
  }

  lemma LinkNegates(op: CmpOp, l: Result<Value>, r: Result<Value>)
    ensures Linked(Negate(op), l, r) == Negated(Linked(op, l, r)) <==> !TestsNoContainer(op, l, r)
  {
    if l.Ok? && r.Ok? && IsOrdering(op) { OrderComplements(op, l.value, r.value); }
  }

  /** A negation can be moved into a comparison exactly if that is not a membership test of
      a value that contains nothing: `x in 5` and `x not in 5` are both false. */
  lemma NegationMovesIn(l: Expr, op: CmpOp, r: Expr, env: Env)
    ensures Eval(Unary(Not, Compare(l, [op], [r])), env) == Eval(Compare(l, [Negate(op)], [r]), env) <==>
      !TestsNoContainer(op, Eval(l, env), Eval(r, env))
  {
    OneLink(l, op, r, env);
    OneLink(l, Negate(op), r, env);
    LinkNegates(op, Eval(l, env), Eval(r, env));
    NotNegates(Compare(l, [op], [r]), Linked(op, Eval(l, env), Eval(r, env)), env);
  }

  lemma NotNegates(e: Expr, r: Result<bool>, env: Env)
    requires Eval(e, env) == AsValue(r)
    ensures Eval(Unary(Not, e), env) == AsValue(Negated(r))
  {
  }

  // ---- What conditions mean, construct by construct ----

  /** The value with every truth value in it replaced by the number it counts as. */
  function Norm(v: Value): Value {
    match v
    case Bool(b) => Num(if b then 1.0 else 0.0)
    case List(xs) => List(seq(|xs|, i requires 0 <= i < |xs| => Norm(xs[i])))
    case Dict(m) => Dict(map k | k in m :: Norm(m[k]))
    case _ => v
  }

  /** Two values are equal exactly if they are the same value once truth values count as
      numbers, at any depth. */
  lemma {:induction false} EqualityMeans(a: Value, b: Value)
    ensures PyEq(a, b) <==> Norm(a) == Norm(b)
  {
    match (a, b)
    case (List(xs), List(ys)) =>
      if |xs| == |ys| {
        forall i | 0 <= i < |xs| ensures PyEq(xs[i], ys[i]) <==> Norm(a).xs[i] == Norm(b).xs[i] {
          EqualityMeans(xs[i], ys[i]);
        }
        assert Norm(a) == Norm(b) <==> Norm(a).xs == Norm(b).xs;
      } else {
        assert |Norm(a).xs| != |Norm(b).xs|;
      }
    case (Dict(m), Dict(n)) =>
      assert Norm(a).m.Keys == m.Keys && Norm(b).m.Keys == n.Keys;
      if m.Keys == n.Keys {
        forall k | k in m ensures PyEq(m[k], n[k]) <==> Norm(a).m[k] == Norm(b).m[k] { EqualityMeans(m[k], n[k]); }
        assert Norm(a) == Norm(b) <==> Norm(a).m == Norm(b).m;
      }
    case _ =>
  }

  lemma EqualityTests(l: Expr, r: Expr, env: Env)
    requires Eval(l, env).Ok? && Eval(r, env).Ok?
    ensures var same := Norm(Eval(l, env).value) == Norm(Eval(r, env).value);
      && Eval(Compare(l, [Eq], [r]), env) == Ok(Bool(same))
      && Eval(Compare(l, [NotEq], [r]), env) == Ok(Bool(!same))
  {
    OneLink(l, Eq, r, env);
    OneLink(l, NotEq, r, env);
    EqualityMeans(Eval(l, env).value, Eval(r, env).value);
  }

  /** Numbers are ordered by value, and truth values as the numbers they count as. */
  lemma NumbersCompare(l: Expr, r: Expr, env: Env, x: real, y: real)
    requires Eval(l, env).Ok? && Norm(Eval(l, env).value) == Num(x)
    requires Eval(r, env).Ok? && Norm(Eval(r, env).value) == Num(y)
    ensures Eval(Compare(l, [Lt], [r]), env) == Ok(Bool(x < y))
    ensures Eval(Compare(l, [LtE], [r]), env) == Ok(Bool(x <= y))
    ensures Eval(Compare(l, [Gt], [r]), env) == Ok(Bool(x > y))
    ensures Eval(Compare(l, [GtE], [r]), env) == Ok(Bool(x >= y))
  {
    OneLink(l, Lt, r, env);
    OneLink(l, LtE, r, env);
    OneLink(l, Gt, r, env);
    OneLink(l, GtE, r, env);
  }

  /** Strings are ordered by code point at the first difference. */
  lemma StringsCompare(l: Expr, r: Expr, env: Env, s: string, u: string)
    requires Eval(l, env) == Ok(Str(s)) && Eval(r, env) == Ok(Str(u))
    ensures var (less, more) := (exists k :: DiffersAt(s, u, k), exists k :: DiffersAt(u, s, k));
      && Eval(Compare(l, [Lt], [r]), env) == Ok(Bool(less))
      && Eval(Compare(l, [LtE], [r]), env) == Ok(Bool(!more))
      && Eval(Compare(l, [Gt], [r]), env) == Ok(Bool(more))
      && Eval(Compare(l, [GtE], [r]), env) == Ok(Bool(!less))
  {
    OneLink(l, Lt, r, env);
    OneLink(l, LtE, r, env);
    OneLink(l, Gt, r, env);
    OneLink(l, GtE, r, env);
    StrLessMeans(s, u);
    StrLessMeans(u, s);
    StrLessTotal(s, u);
  }

  /** The lists agree up to k, and there is a first difference at k or one of them ends. */
  ghost predicate AgreeUpTo(xs: seq<Value>, ys: seq<Value>, k: nat) {
    && k <= |xs| && k <= |ys|
    && (forall i :: 0 <= i < k ==> PyEq(xs[i], ys[i]))
    && (k < |xs| && k < |ys| ==> !PyEq(xs[k], ys[k]))
  }

  /** Lists are ordered as their elements at the first difference, and a list that ends
      there comes first; whether that is an error is decided there, too. */
  lemma {:induction false} ListOrderMeans(op: CmpOp, a: Value, xs: seq<Value>, ys: seq<Value>, k: nat)
    requires IsOrdering(op) && a.List? && |xs| <= |a.xs| && xs == a.xs[|a.xs| - |xs|..]
    requires AgreeUpTo(xs, ys, k)
    ensures ListOrder(op, a, xs, ys) ==
      if k < |xs| && k < |ys| then Order(op, xs[k], ys[k])
      else if k < |ys| then Ok(op.Lt? || op.LtE?)
      else if k < |xs| then Ok(op.Gt? || op.GtE?)
      else Ok(op.LtE? || op.GtE?)
    decreases |xs|
  {
    if k > 0 {
      assert PyEq(xs[0], ys[0]);
      assert AgreeUpTo(xs[1..], ys[1..], k - 1);
      ListOrderMeans(op, a, xs[1..], ys[1..], k - 1);
    }
  }

  lemma ListsCompare(l: Expr, op: CmpOp, r: Expr, env: Env, xs: seq<Value>, ys: seq<Value>, k: nat)
    requires IsOrdering(op) && Eval(l, env) == Ok(List(xs)) && Eval(r, env) == Ok(List(ys)) && AgreeUpTo(xs, ys, k)
    ensures Eval(Compare(l, [op], [r]), env) ==
      if k < |xs| && k < |ys| then AsValue(Order(op, xs[k], ys[k]))
      else if k < |ys| then Ok(Bool(op.Lt? || op.LtE?))
      else if k < |xs| then Ok(Bool(op.Gt? || op.GtE?))
      else Ok(Bool(op.LtE? || op.GtE?))
  {
    OneLink(l, op, r, env);
    ListOrderMeans(op, List(xs), xs, ys, k);
  }

  /** Values of other kinds, and of different kinds, have no order: comparing them raises. */
  lemma OthersDoNotCompare(l: Expr, op: CmpOp, r: Expr, env: Env)
    requires IsOrdering(op) && Eval(l, env).Ok? && Eval(r, env).Ok?
    ensures var (a, b) := (Norm(Eval(l, env).value), Norm(Eval(r, env).value));
      !(a.Num? && b.Num?) && !(a.Str? && b.Str?) && !(a.List? && b.List?) ==> Eval(Compare(l, [op], [r]), env).Err?
  {
    OneLink(l, op, r, env);
  }

  lemma {:induction false} ContainsMeans(t: string, s: string)
    ensures Contains(t, s) <==> exists i :: 0 <= i <= |t| && s <= t[i..]
  {
    if s <= t {
      assert t[0..] == t;
    } else if t != "" {
      ContainsMeans(t[1..], s);
      if Contains(t[1..], s) {
        var i :| 0 <= i <= |t[1..]| && s <= t[1..][i..];
        assert t[i + 1..] == t[1..][i..];
      }
      if i :| 0 <= i <= |t| && s <= t[i..] {
        assert i > 0 && t[1..][i - 1..] == t[i..];
      }
    }
  }

  /** `in` looks for a substring, an equal element, or a key; in anything else it is false. */
  lemma MembershipTests(l: Expr, r: Expr, env: Env)
    requires Eval(l, env).Ok? && Eval(r, env).Ok?
    ensures var (a, b) := (Eval(l, env).value, Eval(r, env).value);
      Eval(Compare(l, [In], [r]), env) == Ok(Bool(
        match b
        case Str(t) => a.Str? && exists i :: 0 <= i <= |t| && a.s <= t[i..]
        case List(ys) => exists i :: 0 <= i < |ys| && Norm(a) == Norm(ys[i])
        case Dict(m) => a.Str? && a.s in m
        case _ => false))
  {
    var (a, b) := (Eval(l, env).value, Eval(r, env).value);
    OneLink(l, In, r, env);
    if a.Str? && b.Str? { ContainsMeans(b.s, a.s); }
    if b.List? {
      forall i | 0 <= i < |b.xs| ensures PyEq(a, b.xs[i]) <==> Norm(a) == Norm(b.xs[i]) { EqualityMeans(a, b.xs[i]); }
    }
  }

  /** `not` is true of exactly None, false, zero and what is empty. */
  lemma NotMeans(e: Expr, env: Env)
    requires Eval(e, env).Ok?
    ensures var v := Eval(e, env).value;
      Eval(Unary(Not, e), env) == Ok(Bool(
        v == Null || v == Bool(false) || v == Num(0.0) || v == Str("") || v == List([]) || v == Dict(map[])))
  {
  }

  /** A constant is itself, one of another kind None, and any other expression raises. */
  lemma LeavesMean(v: Value, e: Expr, env: Env)
    ensures Eval(Const(v), env) == Ok(v) && Eval(OtherConst, env) == Ok(Null)
    ensures Eval(Unsupported, env).Err? && Eval(Unary(Invert, e), env).Err? && Eval(Compare(e, [OtherCmp], [e]), env).Err?
  {
    OneLink(e, OtherCmp, e, env);
  }

  /** A name reads its variable or None, an attribute the field of a dictionary or None and
      of anything else raises, a sign applies to numbers only. */
  lemma ReadsMean(e: Expr, env: Env, id: string)
    ensures Eval(Name(id), env) == Ok(if id in env then env[id] else Null)
    ensures Eval(e, env).Ok? && Eval(e, env).value.Dict? ==>
      var m := Eval(e, env).value.m; Eval(Attribute(e, id), env) == Ok(if id in m then m[id] else Null)
    ensures Eval(e, env).Ok? && !Eval(e, env).value.Dict? ==> Eval(Attribute(e, id), env).Err?
    ensures Eval(e, env).Ok? && Norm(Eval(e, env).value).Num? ==>
      var x := Norm(Eval(e, env).value).r;
      Eval(Unary(USub, e), env) == Ok(Num(-x)) && Eval(Unary(UAdd, e), env) == Ok(Num(x))
    ensures Eval(e, env).Ok? && !Norm(Eval(e, env).value).Num? ==> Eval(Unary(USub, e), env).Err?
  {
  }

  /** `and` and `or` of evaluated operands. */
  lemma JunctionsMean(l: Expr, r: Expr, env: Env)
    requires Eval(l, env).Ok? && Eval(r, env).Ok?
    ensures var (a, b) := (Eval(Unary(Not, l), env) == Ok(Bool(false)), Eval(Unary(Not, r), env) == Ok(Bool(false)));
      && Eval(Bools(And, [l, r]), env) == Ok(Bool(a && b))
      && Eval(Bools(Or, [l, r]), env) == Ok(Bool(a || b))
  {
    TwoOperands(And, l, r, env);
    var vs := EvalAll([l, r], env).value;
    assert vs[0] == Eval(l, env).value && vs[1] == Eval(r, env).value;
  }

  /** A chain of two comparisons holds exactly if both of its links do. */
  lemma ChainsMean(l: Expr, op: CmpOp, m: Expr, op': CmpOp, r: Expr, env: Env)
    requires Eval(Compare(l, [op], [m]), env).Ok? && Eval(Compare(m, [op'], [r]), env).Ok?
    ensures Eval(Compare(l, [op, op'], [m, r]), env) == Ok(Bool(
      Eval(Compare(l, [op], [m]), env) == Ok(Bool(true)) && Eval(Compare(m, [op'], [r]), env) == Ok(Bool(true))))
  {
    OneLink(l, op, m, env);
    OneLink(m, op', r, env);
    assert [op, op'][1..] == [op'] && [m, r][1..] == [r] && [op'][1..] == [] && [r][1..] == [];
    var c := CompareValues(op, Eval(l, env).value, Eval(m, env).value).value;
    assert EvalLinks(Eval(l, env).value, true, [op, op'], [m, r], env)
      == EvalLinks(Eval(m, env).value, c, [op'], [r], env);
    var c' := CompareValues(op', Eval(m, env).value, Eval(r, env).value).value;
    assert EvalLinks(Eval(r, env).value, c && c', [op'][1..], [r][1..], env) == Ok(Bool(c && c'));
    assert EvalLinks(Eval(m, env).value, c, [op'], [r], env) == Ok(Bool(c && c'));
  }

  // ---- Python's rules: left to right, stopping as soon as the answer is known ----

  function ShortCircuit(e: Expr, env: Env): Result<Value> {
    match e
    case Const(v) => Ok(v)
    case OtherConst => Ok(Null)
    case Name(id) => Ok(Lookup(env, id))
    case Compare(left, ops, rights) =>
      (match ShortCircuit(left, env) case Err => Err case Ok(l) => ShortLinks(l, ops, rights, env))
    case Bools(op, values) => ShortBools(op, values, env)
    case Unary(op, x) => (match ShortCircuit(x, env) case Err => Err case Ok(v) => ApplyUnary(op, v))
    case Attribute(x, attr) => (match ShortCircuit(x, env) case Err => Err case Ok(v) => GetAttr(v, attr))
    case Unsupported => Err
  }

  /** `a op b op c` means `a op b and b op c`, with b evaluated once. */
  function ShortLinks(left: Value, ops: seq<CmpOp>, rights: seq<Expr>, env: Env): Result<Value>
    decreases rights
  {
    if ops == [] || rights == [] then Ok(Bool(true))
    else match ShortCircuit(rights[0], env)
      case Err => Err
      case Ok(r) => match CompareValues(ops[0], left, r)
        case Err => Err
        case Ok(c) => if c then ShortLinks(r, ops[1..], rights[1..], env) else Ok(Bool(false))
  }

  /** `and` yields its first false operand, `or` its first true one, else the last. */
  function ShortBools(op: BoolOp, values: seq<Expr>, env: Env): Result<Value>
    decreases values
  {
    if values == [] then Ok(Bool(op.And?))
    else match ShortCircuit(values[0], env)
      case Err => Err
      case Ok(v) => if |values| == 1 || Truthy(v) == op.Or? then Ok(v) else ShortBools(op, values[1..], env)
  }

  // ---- Agreement ----

  /** and/or occur only where their truth value is all that is used. */
  predicate WellPlaced(e: Expr, boolPosition: bool) {
    match e
    case Compare(left, ops, rights) =>
      WellPlaced(left, false) && forall i :: 0 <= i < |rights| ==> WellPlaced(rights[i], false)
    case Bools(op, values) =>
      boolPosition && forall i :: 0 <= i < |values| ==> WellPlaced(values[i], true)
    case Unary(op, x) => WellPlaced(x, op.Not?)
    case Attribute(x, attr) => WellPlaced(x, false)
    case _ => true
  }

  /** Where the evaluator raises no error it has the truth value of Python's rules,
      and outside boolean position the very same value. */
  lemma {:induction false} EagerAgrees(e: Expr, boolPosition: bool, env: Env)
    requires WellPlaced(e, boolPosition) && Eval(e, env).Ok?
    ensures ShortCircuit(e, env).Ok?
    ensures Truthy(ShortCircuit(e, env).value) == Truthy(Eval(e, env).value)
    ensures !boolPosition ==> ShortCircuit(e, env) == Eval(e, env)
  {
    match e
    case Compare(left, ops, rights) =>
      EagerAgrees(left, false, env);
      LinksAgree(Eval(left, env).value, true, ops, rights, env);
    case Bools(op, values) => BoolsAgree(op, values, env);
    case Unary(op, x) => EagerAgrees(x, op.Not?, env);
    case Attribute(x, attr) => EagerAgrees(x, false, env);
    case _ =>
  }

  lemma {:induction false} LinksAgree(left: Value, flag: bool, ops: seq<CmpOp>, rights: seq<Expr>, env: Env)
    requires forall i :: 0 <= i < |rights| ==> WellPlaced(rights[i], false)
    requires EvalLinks(left, flag, ops, rights, env).Ok?
    ensures EvalLinks(left, flag, ops, rights, env) ==
      if flag then ShortLinks(left, ops, rights, env) else Ok(Bool(false))
    decreases rights
  {
    if ops != [] && rights != [] {
      EagerAgrees(rights[0], false, env);
      var r := Eval(rights[0], env).value;
      LinksAgree(r, flag && CompareValues(ops[0], left, r).value, ops[1..], rights[1..], env);
    }
  }

  lemma {:induction false} BoolsAgree(op: BoolOp, values: seq<Expr>, env: Env)
    requires forall i :: 0 <= i < |values| ==> WellPlaced(values[i], true)
    requires EvalAll(values, env).Ok?
    ensures ShortBools(op, values, env).Ok?
    ensures var vs := EvalAll(values, env).value;
      Truthy(ShortBools(op, values, env).value) ==
        if op.And? then forall i :: 0 <= i < |vs| ==> Truthy(vs[i]) else exists i :: 0 <= i < |vs| && Truthy(vs[i])
    decreases values
  {
    if values != [] {
      EagerAgrees(values[0], true, env);
      BoolsAgree(op, values[1..], env);
      var vs := EvalAll(values, env).value;
      assert vs[0] == Eval(values[0], env).value && vs[1..] == EvalAll(values[1..], env).value;
      assert forall i :: 0 < i < |vs| ==> vs[i] == vs[1..][i - 1];
    }
  }

  lemma TwoOperands(op: BoolOp, a: Expr, b: Expr, env: Env)
    ensures EvalAll([a, b], env) ==
      if Eval(a, env).Ok? && Eval(b, env).Ok? then Ok([Eval(a, env).value, Eval(b, env).value]) else Err
    ensures ShortBools(op, [a, b], env) ==
      if ShortCircuit(a, env).Err? then Err
      else if Truthy(ShortCircuit(a, env).value) == op.Or? then ShortCircuit(a, env) else ShortCircuit(b, env)
  {
    assert [a, b][1..] == [b] && [b][1..] == [];
    assert EvalAll([b], env) == if Eval(b, env).Ok? then Ok([Eval(b, env).value]) else Err by {
      assert EvalAll([b][1..], env) == Ok([]);
      assert forall v: Value :: [v] + [] == [v];
    }
    assert forall v: Value, w: Value :: [v] + [w] == [v, w];
  }

  /** Placement matters: `(x or 5) == 5` with x unset is false here and true in Python. */
  lemma PlacementNeeded(env: Env)
    requires "x" !in env
    ensures var e := Compare(Bools(Or, [Name("x"), Const(Num(5.0))]), [Eq], [Const(Num(5.0))]);
      Eval(e, env) == Ok(Bool(false)) && ShortCircuit(e, env) == Ok(Bool(true)) && !WellPlaced(e, true)
  {
    var five := Const(Num(5.0));
    TwoOperands(Or, Name("x"), five, env);
    assert Truthy([Null, Num(5.0)][1]);
    assert [Eq][1..] == [] && [five][1..] == [];
    assert Eval(Bools(Or, [Name("x"), five]), env) == Ok(Bool(true));
    assert ShortLinks(Num(5.0), [Eq], [five], env) == Ok(Bool(true)) by {
      assert ShortLinks(Num(5.0), [], [], env) == Ok(Bool(true));
    }
  }

  /** Errors matter: `x and x.y` with x unset is false in Python, but here it fails open. */
  lemma FailsOpen(env: Env)
    requires "x" !in env
    ensures var e := Bools(And, [Name("x"), Attribute(Name("x"), "y")]);
      WellPlaced(e, true) && SafeEval(Some(e), env, map[]) && ShortCircuit(e, env) == Ok(Null) && !Truthy(Null)
  {
    TwoOperands(And, Name("x"), Attribute(Name("x"), "y"), env);
    assert env + map[] == env;
  }

  /** On any error the wrapper answers true; otherwise it answers as Python would. */
  lemma SafeEvalSpec(e: Expr, context: Env, input: Env)
    requires WellPlaced(e, true)
    ensures SafeEval(Some(e), context, input) <==>
      Eval(e, context + input).Err? ||
      (ShortCircuit(e, context + input).Ok? && Truthy(ShortCircuit(e, context + input).value))
  {
    if Eval(e, context + input).Ok? { EagerAgrees(e, true, context + input); }
  }

  // ---- What a condition reads ----

  function NamesIn(e: Expr): set<string> {
    match e
    case Name(id) => {id}
    case Compare(left, ops, rights) => NamesIn(left) + AllNames(rights)
    case Bools(op, values) => AllNames(values)
    case Unary(op, x) => NamesIn(x)
    case Attribute(x, attr) => NamesIn(x)
    case _ => {}
  }

  function AllNames(es: seq<Expr>): set<string> {
    if es == [] then {} else NamesIn(es[0]) + AllNames(es[1..])
  }

  ghost predicate AgreeOn(names: set<string>, a: Env, b: Env) {
    forall n :: n in names ==> Lookup(a, n) == Lookup(b, n)
  }

  /** Evaluation depends on the named variables alone. */
  lemma {:induction false} EvalReadsNames(e: Expr, a: Env, b: Env)
    requires AgreeOn(NamesIn(e), a, b)
    ensures Eval(e, a) == Eval(e, b)
  {
    match e
    case Compare(left, ops, rights) =>
      EvalReadsNames(left, a, b);
      if Eval(left, a).Ok? { LinksReadNames(Eval(left, a).value, true, ops, rights, a, b); }
    case Bools(op, values) => AllReadNames(values, a, b);
    case Unary(op, x) => EvalReadsNames(x, a, b);
    case Attribute(x, attr) => EvalReadsNames(x, a, b);
    case _ =>
  }

  lemma {:induction false} LinksReadNames(left: Value, flag: bool, ops: seq<CmpOp>, rights: seq<Expr>, a: Env, b: Env)
    requires AgreeOn(AllNames(rights), a, b)
    ensures EvalLinks(left, flag, ops, rights, a) == EvalLinks(left, flag, ops, rights, b)
    decreases rights
  {
    if ops != [] && rights != [] {
      EvalReadsNames(rights[0], a, b);
      if Eval(rights[0], a).Ok? {
        var r := Eval(rights[0], a).value;
        LinksReadNames(r, false, ops[1..], rights[1..], a, b);
        LinksReadNames(r, true, ops[1..], rights[1..], a, b);
      }
    }
  }

  lemma {:induction false} AllReadNames(es: seq<Expr>, a: Env, b: Env)
    requires AgreeOn(AllNames(es), a, b)
    ensures EvalAll(es, a) == EvalAll(es, b)
  {
    if es != [] {
      EvalReadsNames(es[0], a, b);
      AllReadNames(es[1..], a, b);
    }
  }

  // ---- The loops of the evaluator ----

  /** The evaluator as written: recursion over the tree, loops over chains and operands. */
  method EvalNode(e: Expr, env: Env) returns (r: Result<Value>)
    ensures r == Eval(e, env)
    decreases e
  {
    match e
    case Const(v) => r := Ok(v);
    case OtherConst => r := Ok(Null);
    case Name(id) => r := Ok(Lookup(env, id));
    case Compare(left, ops, rights) =>
      r := EvalNode(left, env);
      if r.Ok? { r := EvalChain(r.value, ops, rights, env); }
    case Bools(op, values) =>
      var vs := EvalOperands(values, env);
      if vs.Err? { return Err; }
      r := Ok(Bool(if op.And? then forall i :: 0 <= i < |vs.value| ==> Truthy(vs.value[i])
                   else exists i :: 0 <= i < |vs.value| && Truthy(vs.value[i])));
    case Unary(op, x) =>
      r := EvalNode(x, env);
      if r.Ok? { r := ApplyUnary(op, r.value); }
    case Attribute(x, attr) =>
      r := EvalNode(x, env);
      if r.Ok? { r := GetAttr(r.value, attr); }
    case Unsupported => r := Err;
  }

  method EvalChain(left: Value, ops: seq<CmpOp>, rights: seq<Expr>, env: Env) returns (r: Result<Value>)
    ensures r == EvalLinks(left, true, ops, rights, env)
    decreases rights
  {
    var leftVal, flag, i := left, true, 0;
    while i < |ops| && i < |rights|
      invariant 0 <= i <= |ops| && i <= |rights|
      invariant EvalLinks(left, true, ops, rights, env) == EvalLinks(leftVal, flag, ops[i..], rights[i..], env)
    {
      assert ops[i..][1..] == ops[i + 1..] && rights[i..][1..] == rights[i + 1..];
      var rightVal := EvalNode(rights[i], env);
      if rightVal.Err? || ops[i].OtherCmp? { return Err; }
      if flag {
        var c := CompareValues(ops[i], leftVal, rightVal.value);
        if c.Err? { return Err; }
        flag := c.value;
      }
      leftVal := rightVal.value;
      i := i + 1;
    }
    r := Ok(Bool(flag));
  }

  method EvalOperands(values: seq<Expr>, env: Env) returns (r: Result<seq<Value>>)
    ensures r == EvalAll(values, env)
    decreases values
  {
    var vs: seq<Value> := [];
    assert values[0..] == values && forall rest: seq<Value> :: [] + rest == rest;
    for i := 0 to |values|
      invariant EvalAll(values, env) ==
        match EvalAll(values[i..], env) case Err => Err case Ok(rest) => Ok(vs + rest)
    {
      assert values[i..][1..] == values[i + 1..];
      var v := EvalNode(values[i], env);
      if v.Err? { return Err; }
      assert forall rest: seq<Value> :: vs + ([v.value] + rest) == (vs + [v.value]) + rest;
      vs := vs + [v.value];
    }
    assert vs + [] == vs;
    r := Ok(vs);
  }
}
