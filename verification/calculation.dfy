/** Calculation entities: an operation tag with two operands, executed by
    delegating to the arithmetic library and rendered as text. */
module Calculation {
  import Text
  import Operation

  /** The four concrete calculation classes. */
  datatype Kind = Add | Subtract | Multiply | Divide

  /** A calculation entity: its class and the two operands stored verbatim. */
  datatype Calc = Calc(kind: Kind, a: real, b: real)

  /** The failures the core raises. */
  datatype Error =
    | DuplicateRegistration(calculationType: string)  // ValueError from registration
    | Unsupported(calculationType: string)            // ValueError from creation
    | DivisionByZero                                  // ZeroDivisionError from division

  datatype Result<+T> = Ok(value: T) | Err(error: Error)

  /** The text each error carries. The two name-carrying errors quote the
      name as the caller wrote it, at a fixed place after their fixed opening. */
  function Message(e: Error): (r: string)
    ensures e.DuplicateRegistration? ==>
              |r| > 18 + |e.calculationType| && r[18..18 + |e.calculationType|] == e.calculationType
    ensures e.Unsupported? ==>
              |r| > 31 + |e.calculationType| && r[31..31 + |e.calculationType|] == e.calculationType
  {
    match e
    case DuplicateRegistration(t) => "Calculation type '" + t + "' is already registered."
    case Unsupported(t) => "Unsupported calculation type: '" + t + "'"
    case DivisionByZero => "Cannot divide by zero."
  }

  /** Different errors have different texts: the text tells which error was
      raised and, for the two name-carrying ones, which name caused it. */
  lemma MessageInjective(e1: Error, e2: Error)
    requires Message(e1) == Message(e2)
    ensures e1 == e2
  {
    var m := Message(e1);
    assert Message(DivisionByZero)[2] == 'n';
    match e1
    case DuplicateRegistration(t1) =>
      assert m[0] == 'C' && m[2] == 'l';
      assert |t1| == |m| - 42;
      if e2.DuplicateRegistration? {
        assert |e2.calculationType| == |t1|;
      }
    case Unsupported(t1) =>
      assert m[0] == 'U';
      assert |t1| == |m| - 32;
      if e2.Unsupported? {
        assert |e2.calculationType| == |t1|;
      }
    case DivisionByZero =>
      assert m[0] == 'C' && m[2] == 'n';
  }

  /** The bare operation word of each kind. */
  function Stem(k: Kind): string {
    match k
    case Add => "Add"
    case Subtract => "Subtract"
    case Multiply => "Multiply"
    case Divide => "Divide"
  }

  /** The class name of each kind of entity: its operation word followed by
      "Calculation" (AddCalculation, SubtractCalculation, ...). */
  function ClassName(k: Kind): (r: string)
    ensures |r| > 11 && r[|r| - 11..] == "Calculation"
  {
    Stem(k) + "Calculation"
  }

  /** Each class has its own name. */
  lemma ClassNameInjective(k1: Kind, k2: Kind)
    requires ClassName(k1) == ClassName(k2)
    ensures k1 == k2
  {
    assert ClassName(k1)[0] == Stem(k1)[0];
    assert ClassName(k2)[0] == Stem(k2)[0];
  }

  /** The operation name shown in the text rendering: the class name with
      every "Calculation" removed. It is the bare operation word: putting the
      suffix back gives the class name, and no 'C' is left in it that could
      start another "Calculation". */
  function OperationName(k: Kind): (r: string)
    ensures r + "Calculation" == ClassName(k)
    ensures forall i :: 0 <= i < |r| ==> r[i] != 'C'
  {
    Text.RemoveAllTrailing(Stem(k), "Calculation");
    Text.RemoveAll(ClassName(k), "Calculation")
  }

  /** Stripping "Calculation" from the class name leaves the operation word. */
  lemma OperationNameIsStem(k: Kind)
    ensures OperationName(k) == Stem(k)
  {
    Text.RemoveAllTrailing(Stem(k), "Calculation");
  }

  /** Execute the entity. Only division can fail, and it fails exactly for a
      zero divisor, before the library is called. */
  function Execute(c: Calc): (r: Result<real>)
    ensures r.Err? <==> (c.kind == Divide && c.b == 0.0)
    ensures r.Err? ==> r.error == DivisionByZero
    ensures r.Ok? && c.kind == Add ==> r.value == c.a + c.b
    ensures r.Ok? && c.kind == Subtract ==> r.value + c.b == c.a
    ensures r.Ok? && c.kind == Multiply ==> r.value == c.a * c.b
    ensures r.Ok? && c.kind == Divide ==> r.value * c.b == c.a
  {
    match c.kind
    case Add => Ok(Operation.Addition(c.a, c.b))
    case Subtract => Ok(Operation.Subtraction(c.a, c.b))
    case Multiply => Ok(Operation.Multiplication(c.a, c.b))
    case Divide =>
      if c.b == 0.0 then Err(DivisionByZero)
      else Ok(Operation.Division(c.a, c.b))
  }

  /** The human-readable rendering "<Class>: a <Op> b = result". It executes
      the entity first, so it fails with the same error whenever execution
      fails. `show` renders a number. */
  function Str(c: Calc, show: real -> string): (r: Result<string>)
    ensures r.Err? <==> Execute(c).Err?
    ensures r.Err? ==> r.error == Execute(c).error
    ensures r.Ok? ==> r.value == ClassName(c.kind) + ": " + show(c.a) + " " + OperationName(c.kind)
                                 + " " + show(c.b) + " = " + show(Execute(c).value)
  {
    match Execute(c)
    case Err(e) => Err(e)
    case Ok(v) =>
      Ok(ClassName(c.kind) + ": " + show(c.a) + " " + OperationName(c.kind) + " " + show(c.b) + " = " + show(v))
  }

  /** Text rendering fails exactly on a division by zero. */
  lemma StrFailsOnlyOnZeroDivisor(c: Calc, show: real -> string)
    ensures Str(c, show).Err? <==> (c.kind == Divide && c.b == 0.0)
    ensures Str(c, show).Err? ==> Str(c, show).error == DivisionByZero
  {
  }

  /** The text rendering of the sum of 2 and 3, given a number renderer that
      writes them as "2.0", "3.0" and "5.0". */
  lemma RenderAdd(show: real -> string)
    requires show(2.0) == "2.0" && show(3.0) == "3.0" && show(5.0) == "5.0"
    ensures Str(Calc(Add, 2.0, 3.0), show) == Ok("AddCalculation: 2.0 Add 3.0 = 5.0")
  {
    var c := Calc(Add, 2.0, 3.0);
    assert Execute(c) == Ok(5.0);
    assert OperationName(Add) == "Add" by { OperationNameIsStem(Add); }
    var n, o := ClassName(Add), OperationName(Add);
    assert Str(c, show) == Ok(n + ": " + show(2.0) + " " + o + " " + show(3.0) + " = " + show(5.0));
    AddText();
  }

  /** The pieces of the Add rendering spell out the expected line. */
  lemma AddText()
    ensures ClassName(Add) + ": " + "2.0" + " " + "Add" + " " + "3.0" + " = " + "5.0"
         == "AddCalculation: 2.0 Add 3.0 = 5.0"
  {
  }

  /** The machine-oriented rendering "<Class>(a=.., b=..)": it computes
      nothing, so it is defined for every entity, a zero divisor included. */
  function Repr(c: Calc, show: real -> string): (r: string)
    ensures |r| > |ClassName(c.kind)|
    ensures r[..|ClassName(c.kind)|] == ClassName(c.kind)
    ensures r[|r| - 1] == ')'
  {
    ClassName(c.kind) + "(a=" + show(c.a) + ", b=" + show(c.b) + ")"
  }

  /** The rendering identifies the class: equal renderings have equal kinds. */
  lemma ReprIdentifiesKind(c1: Calc, c2: Calc, show: real -> string)
    requires Repr(c1, show) == Repr(c2, show)
    ensures c1.kind == c2.kind
  {
    assert Repr(c1, show)[0] == ClassName(c1.kind)[0];
    assert Repr(c2, show)[0] == ClassName(c2.kind)[0];
  }
}
