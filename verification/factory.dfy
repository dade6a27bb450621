/** The calculation registry: a map from lower-case operation names to
    calculation kinds, filled by registration and read by creation. */
module Factory {
  import Text
  import opened Calculation

  /** Registry invariant: every key is already lower-case. */
  predicate AllLower(m: map<string, Kind>) {
    forall key :: key in m ==> Text.IsLower(key)
  }

  /** Creation: look up the lower-cased name; a missing name is an error that
      carries the name as the caller wrote it, a present one yields an entity
      holding the operands unchanged. */
  function Create(m: map<string, Kind>, calculationType: string, a: real, b: real): (r: Result<Calc>)
    ensures r.Ok? <==> Text.Lower(calculationType) in m
    ensures r.Err? ==> r.error == Unsupported(calculationType)
    ensures r.Ok? ==> r.value.kind == m[Text.Lower(calculationType)] && r.value.a == a && r.value.b == b
  {
    var key := Text.Lower(calculationType);
    if key in m then Ok(Calc(m[key], a, b)) else Err(Unsupported(calculationType))
  }

  /** The registry after a registration attempt: unchanged when the
      lower-cased name is taken, otherwise extended by exactly that key. */
  function Registered(m: map<string, Kind>, calculationType: string, kind: Kind): (r: map<string, Kind>)
    ensures Text.Lower(calculationType) in m ==> r == m
    ensures Text.Lower(calculationType) !in m ==>
              r.Keys == m.Keys + {Text.Lower(calculationType)} && r[Text.Lower(calculationType)] == kind
    ensures forall key :: key in m ==> key in r && r[key] == m[key]
  {
    var key := Text.Lower(calculationType);
    if key in m then m else m[key := kind]
  }

  /** A successful registration adds exactly one entry. */
  lemma RegisteredGrowsByOne(m: map<string, Kind>, calculationType: string, kind: Kind)
    requires Text.Lower(calculationType) !in m
    ensures |Registered(m, calculationType, kind)| == |m| + 1
  {
  }

  /** Registration keeps every key lower-case. */
  lemma RegisteredKeepsKeysLower(m: map<string, Kind>, calculationType: string, kind: Kind)
    requires AllLower(m)
    ensures AllLower(Registered(m, calculationType, kind))
  {
  }

  /** With lower-case keys no two keys are equal up to case, so each name a
      caller may write reaches at most one entry. */
  lemma LowerKeysAreCaseDistinct(m: map<string, Kind>, k1: string, k2: string)
    requires AllLower(m)
    requires k1 in m && k2 in m && Text.EqualIgnoringCase(k1, k2)
    ensures k1 == k2
  {
    Text.LowerEqualIff(k1, k2);
  }

  /** Creation ignores case: names that are equal up to ASCII case both fail
      or both yield the same entity. */
  lemma CreateIsCaseInsensitive(m: map<string, Kind>, n1: string, n2: string, a: real, b: real)
    requires Text.EqualIgnoringCase(n1, n2)
    ensures Create(m, n1, a, b).Ok? == Create(m, n2, a, b).Ok?
    ensures Create(m, n1, a, b).Ok? ==> Create(m, n1, a, b) == Create(m, n2, a, b)
  {
    Text.LowerEqualIff(n1, n2);
  }

  /** After a successful registration, every spelling of the name that is
      equal to it up to case creates an entity of the registered kind. */
  lemma CreateAfterRegister(m: map<string, Kind>, calculationType: string, kind: Kind, name: string, a: real, b: real)
    requires Text.Lower(calculationType) !in m
    requires Text.EqualIgnoringCase(name, calculationType)
    ensures Create(Registered(m, calculationType, kind), name, a, b) == Ok(Calc(kind, a, b))
  {
    Text.LowerEqualIff(name, calculationType);
  }

  /** A rejected duplicate leaves the original registration in force for
      every spelling of the name. */
  lemma DuplicateKeepsOriginal(m: map<string, Kind>, calculationType: string, kind: Kind, name: string, a: real, b: real)
    requires Text.Lower(calculationType) in m
    requires Text.EqualIgnoringCase(name, calculationType)
    ensures Create(Registered(m, calculationType, kind), name, a, b) == Ok(Calc(m[Text.Lower(calculationType)], a, b))
  {
    Text.LowerEqualIff(name, calculationType);
  }

  /** Registration never changes what an already-registered name creates. */
  lemma RegisterKeepsEarlierNames(m: map<string, Kind>, calculationType: string, kind: Kind, name: string, a: real, b: real)
    requires Create(m, name, a, b).Ok?
    ensures Create(Registered(m, calculationType, kind), name, a, b) == Create(m, name, a, b)
  {
  }

  /** The name each concrete class is registered under by its decorator. */
  function DecoratorName(k: Kind): string {
    match k
    case Add => "add"
    case Subtract => "subtract"
    case Multiply => "multiply"
    case Divide => "divide"
  }

  /** The registry the four decorated classes leave behind. */
  function BuiltIns(): map<string, Kind> {
    map["add" := Add, "subtract" := Subtract, "multiply" := Multiply, "divide" := Divide]
  }

  /** Every decorator name is its own lower-case form. */
  lemma DecoratorNameIsLower(k: Kind)
    ensures Text.Lower(DecoratorName(k)) == DecoratorName(k)
  {
  }

  /** With the built-in registry, each decorator name creates an entity of
      its own class, whose execution is the matching operation; division
      fails exactly on a zero divisor. */
  lemma BuiltInsExecute(k: Kind, a: real, b: real)
    ensures Create(BuiltIns(), DecoratorName(k), a, b) == Ok(Calc(k, a, b))
    ensures Execute(Calc(k, a, b)) == match k
      case Add => Ok(a + b)
      case Subtract => Ok(a - b)
      case Multiply => Ok(a * b)
      case Divide => if b == 0.0 then Err(DivisionByZero) else Ok(a / b)
  {
    DecoratorNameIsLower(k);
    match k
    case Add =>
    case Subtract =>
    case Multiply =>
      assert Execute(Calc(k, a, b)).value == a * b;
    case Divide =>
  }

  /** "ADD" and "add" create the same entity; "power" is unsupported and the
      error names it. */
  lemma BuiltInsLookups()
    ensures Create(BuiltIns(), "ADD", 2.0, 3.0) == Create(BuiltIns(), "add", 2.0, 3.0) == Ok(Calc(Add, 2.0, 3.0))
    ensures Create(BuiltIns(), "power", 2.0, 3.0) == Err(Unsupported("power"))
  {
    DecoratorNameIsLower(Add);
    var r := Text.Lower("ADD");
    assert r[0] == 'a' && r[1] == 'd' && r[2] == 'd';
    assert r == "add";
    var s := "power";
    assert s[0] == 'p' && s[1] == 'o' && s[2] == 'w' && s[3] == 'e' && s[4] == 'r';
  }

  /** Rendering the sum of 2 and 3 created through the built-in registry,
      given a number renderer that writes them as "2.0", "3.0" and "5.0". */
  lemma BuiltInsRenderAdd(show: real -> string)
    requires show(2.0) == "2.0" && show(3.0) == "3.0" && show(5.0) == "5.0"
    ensures var c := Create(BuiltIns(), "add", 2.0, 3.0);
      c.Ok? && Str(c.value, show) == Ok("AddCalculation: 2.0 Add 3.0 = 5.0")
  {
    BuiltInsExecute(Add, 2.0, 3.0);
    assert Create(BuiltIns(), "add", 2.0, 3.0) == Ok(Calc(Add, 2.0, 3.0));
    RenderAdd(show);
  }

  /** The registry: `calculations` is the class-level dictionary. */
  class CalculationFactory {
    var calculations: map<string, Kind>

    ghost predicate Valid()
      reads this
    {
      AllLower(calculations)
    }

    /** The dictionary starts empty. */
    constructor ()
      ensures Valid() && calculations == map[]
    {
      calculations := map[];
    }

    /** Register `kind` under the lower-cased name; a name already taken is
        rejected and the dictionary is left as it was. On success the
        registered kind is handed back. */
    method RegisterCalculation(calculationType: string, kind: Kind) returns (r: Result<Kind>)
      requires Valid()
      modifies this
      ensures Valid()
      ensures calculations == Registered(old(calculations), calculationType, kind)
      ensures r == if Text.Lower(calculationType) in old(calculations)
                   then Err(DuplicateRegistration(calculationType)) else Ok(kind)
    {
      var key := Text.Lower(calculationType);
      if key in calculations {
        return Err(DuplicateRegistration(calculationType));
      }
      RegisteredKeepsKeysLower(calculations, calculationType, kind);
      calculations := calculations[key := kind];
      r := Ok(kind);
    }

    /** Create an entity for the named calculation from the current dictionary. */
    method CreateCalculation(calculationType: string, a: real, b: real) returns (r: Result<Calc>)
      ensures r == Create(calculations, calculationType, a, b)
    {
      r := Create(calculations, calculationType, a, b);
    }

    /** The registry's keys are lower-case and no two of them are equal up to
        case. */
    lemma KeysAreCaseDistinct(k1: string, k2: string)
      requires Valid()
      requires k1 in calculations && k2 in calculations
      ensures Text.IsLower(k1)
      ensures Text.EqualIgnoringCase(k1, k2) ==> k1 == k2
    {
      if Text.EqualIgnoringCase(k1, k2) {
        LowerKeysAreCaseDistinct(calculations, k1, k2);
      }
    }
  }

  /** Module initialisation: an empty registry and the four registrations in
      source order, none of which is a duplicate. */
  method Initialise() returns (f: CalculationFactory)
    ensures fresh(f) && f.Valid()
    ensures f.calculations == BuiltIns()
    ensures f.calculations.Keys == {"add", "subtract", "multiply", "divide"}
  {
    f := new CalculationFactory();
    DecoratorNameIsLower(Add);
    assert Text.Lower("add") == "add";
    var r := f.RegisterCalculation("add", Add);
    assert r.Ok? && f.calculations == map["add" := Add];
    DecoratorNameIsLower(Subtract);
    assert Text.Lower("subtract") == "subtract";
    r := f.RegisterCalculation("subtract", Subtract);
    assert r.Ok? && f.calculations == map["add" := Add, "subtract" := Subtract];
    DecoratorNameIsLower(Multiply);
    assert Text.Lower("multiply") == "multiply";
    r := f.RegisterCalculation("multiply", Multiply);
    assert r.Ok? && f.calculations == map["add" := Add, "subtract" := Subtract, "multiply" := Multiply];
    DecoratorNameIsLower(Divide);
    assert Text.Lower("divide") == "divide";
    r := f.RegisterCalculation("divide", Divide);
    assert r.Ok?;
  }
}
