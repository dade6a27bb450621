# Calculation registry and entities

A Dafny model of the core of a two-operand command-line calculator: the
calculation registry (`CalculationFactory`) that maps lower-case operator names
to calculation classes, and the calculation entities (`AddCalculation`,
`SubtractCalculation`, `MultiplyCalculation`, `DivideCalculation`) that hold two
operands, execute by delegating to an arithmetic library, and render
themselves as text.

Modules:

- `Text` (`text.dfy`): ASCII lower-casing (the model of `str.lower()`) and
  removal of every occurrence of a pattern (the model of `str.replace(p, '')`).
- `Operation` (`operation.dfy`): the arithmetic library the entities call,
  taken as exact real arithmetic.
- `Calculation` (`calculation.dfy`): the entity datatype `Calc(kind, a, b)` with
  a `Kind` tag per concrete class, the `Error`/`Result` datatypes for the three
  exceptions, `Execute`, the text rendering `Str` (`__str__`) and the
  machine rendering `Repr` (`__repr__`).
- `Factory` (`factory.dfy`): the registry as a class `CalculationFactory` whose
  `calculations` map is updated in place by `RegisterCalculation`, read by
  `CreateCalculation`, and filled with the four built-in registrations by
  `Initialise`; the functions `Registered` and `Create` state what those methods
  do to and with the map, and the lemmas relate them.

Rendering a number is a parameter `show: real -> string` of `Str` and `Repr`.
Because `Str` is a function of the entity and `show`, two renderings of the same
entity are equal by construction.

## Model

| member | source | states |
|---|---|---|
| `Text.Lower` | app/calculation/__init__.py:68 | the result is lower-case and equal to the input up to ASCII case (so each 'A'..'Z' becomes its lower-case letter and every other character is kept); a lower-case string is returned unchanged |
| `Text.LowerEqualIff` | app/calculation/__init__.py:79 | two names lower-case to the same key exactly when they are equal up to ASCII case |
| `Text.LowerIdempotent` | app/calculation/__init__.py:79 | lower-casing twice equals lower-casing once |
| `Text.RemoveAll` | app/calculation/__init__.py:36 | removing every occurrence of the pattern never lengthens the string, and returns a string in which no character can start an occurrence unchanged |
| `Text.RemoveAllLeading` | app/calculation/__init__.py:36 | an occurrence at the front is dropped and the rest is processed as if it stood alone |
| `Text.RemoveAllKeepsPrefix` | app/calculation/__init__.py:36 | a prefix none of whose characters can start an occurrence is kept verbatim in front of the processed rest |
| `Text.RemoveAllTrailing` | app/calculation/__init__.py:36 | removing the pattern from `x + pattern` gives back `x` when no character of `x` can start an occurrence |
| `Calculation.Message` | app/calculation/__init__.py:71-83 | the duplicate-registration and unsupported-type texts quote the name as the caller wrote it, at a fixed place after their fixed opening |
| `Calculation.MessageInjective` | app/calculation/__init__.py:71-129 | different errors have different texts, so a text identifies the error and the offending name |
| `Calculation.ClassName` | app/calculation/__init__.py:99-123 | every concrete class name (`__class__.__name__`) ends in "Calculation" |
| `Calculation.ClassNameInjective` | app/calculation/__init__.py:99-123 | different classes have different names |
| `Calculation.OperationName` | app/calculation/__init__.py:36 | the operation name is the class name's stem: adding "Calculation" back gives the class name, and it holds no 'C' that could start another occurrence |
| `Calculation.OperationNameIsStem` | app/calculation/__init__.py:36 | the class name with "Calculation" removed is the operation word "Add", "Subtract", "Multiply" or "Divide" |
| `Calculation.Execute` | app/calculation/__init__.py:101-131 | execution fails exactly for a division with divisor zero, with the division-by-zero error; otherwise the value is the sum, difference (value + b == a), product or quotient (value * b == a) of the operands |
| `Calculation.Str` | app/calculation/__init__.py:29-37 | the text rendering fails exactly when execution fails, with the same error; on success it is "Class: a Op b = result" with the executed result |
| `Calculation.StrFailsOnlyOnZeroDivisor` | app/calculation/__init__.py:35-37 | rendering an entity as text fails exactly for a division by zero, with the division-by-zero error |
| `Calculation.RenderAdd` | app/calculation/__init__.py:35-37 | an Add entity for 2 and 3 renders as "AddCalculation: 2.0 Add 3.0 = 5.0" when numbers render as "2.0", "3.0", "5.0" |
| `Calculation.Repr` | app/calculation/__init__.py:39-40 | the machine rendering is defined for every entity (no execution), starts with the class name and ends with ")" |
| `Calculation.ReprIdentifiesKind` | app/calculation/__init__.py:40 | two entities with equal machine renderings are of the same class |
| `Factory.Create` | app/calculation/__init__.py:78-86 | creation succeeds exactly when the lower-cased name is a key; failure is Unsupported carrying the name as given; success yields an entity of the mapped kind holding `a` and `b` verbatim |
| `Factory.Registered` | app/calculation/__init__.py:68-73 | a taken lower-cased name leaves the map unchanged; otherwise the key set grows by exactly that key, mapped to the new kind; every earlier entry is kept |
| `Factory.RegisteredGrowsByOne` | app/calculation/__init__.py:70-73 | a successful registration increases the number of entries by one |
| `Factory.RegisteredKeepsKeysLower` | app/calculation/__init__.py:68-73 | registration preserves the invariant that every key is lower-case |
| `Factory.LowerKeysAreCaseDistinct` | app/calculation/__init__.py:62-73 | in a registry with lower-case keys, two keys that are equal up to ASCII case are the same key |
| `Factory.CreateIsCaseInsensitive` | app/calculation/__init__.py:79-80 | names that are equal up to ASCII case both fail or both create the same entity |
| `Factory.CreateAfterRegister` | app/calculation/__init__.py:68-86 | after a successful registration, every spelling equal to the name up to case creates an entity of the registered kind with the given operands |
| `Factory.DuplicateKeepsOriginal` | app/calculation/__init__.py:70-71 | after a rejected duplicate registration, every spelling of the name still creates an entity of the originally registered kind |
| `Factory.RegisterKeepsEarlierNames` | app/calculation/__init__.py:70-73 | registration never changes what an already-creatable name creates |
| `Factory.DecoratorNameIsLower` | app/calculation/__init__.py:99-122 | each decorator name ("add", "subtract", "multiply", "divide") is its own lower-case form |
| `Factory.BuiltInsExecute` | app/calculation/__init__.py:99-131 | with the built-in registry each decorator name creates its own class; executing it gives a + b, a - b, a * b, or a / b, and division by zero fails |
| `Factory.BuiltInsLookups` | app/calculation/__init__.py:79-83 | "ADD" and "add" create the same Add entity; "power" fails with Unsupported("power") |
| `Factory.BuiltInsRenderAdd` | app/calculation/__init__.py:35-37 | the entity "add" creates for 2 and 3 through the built-in registry renders as "AddCalculation: 2.0 Add 3.0 = 5.0" when numbers render as "2.0", "3.0", "5.0" |
| `Factory.CalculationFactory.constructor` | app/calculation/__init__.py:62 | the registry starts empty and satisfies the lower-case-key invariant |
| `Factory.CalculationFactory.RegisterCalculation` | app/calculation/__init__.py:65-75 | keeps the invariant; the new map is `Registered(old map, name, kind)`; returns DuplicateRegistration(name) when the lower-cased name is taken, otherwise the registered kind |
| `Factory.CalculationFactory.CreateCalculation` | app/calculation/__init__.py:77-86 | the result is `Create` on the current dictionary, with the meaning stated for `Factory.Create` |
| `Factory.CalculationFactory.KeysAreCaseDistinct` | app/calculation/__init__.py:62-73 | every key of a valid registry is lower-case, and two keys equal up to case are the same key |
| `Factory.Initialise` | app/calculation/__init__.py:99-123 | the four registrations all succeed and leave exactly the keys "add", "subtract", "multiply", "divide" mapped to their classes |

## Left out

- Floating point: operands and results are `real`; rounding, NaN, infinities and `-0.0` (which also trips the zero-divisor guard) are not modelled.
- The arithmetic library `app/operation`: its internals are not modelled; its four functions are taken to be exact real `+`, `-`, `*`, `/`.
- Python's float-to-string formatting: numbers are rendered by the `show` parameter.
- `str.lower()` is modelled on ASCII letters only; Unicode case mapping is not modelled.
- Decorators and `abc`: registration is an explicit `RegisterCalculation` call in `Initialise` rather than a decorator applied at class definition; the abstract `execute` and the ban on instantiating the base class are not modelled.
- The registry is open to any subclass in the source; here a registered value is one of the four `Kind` tags, so classes defined elsewhere cannot be registered.
- The class-level dictionary is shared by the whole process; here it is a field of one `CalculationFactory` object.
- Both registration and creation errors are `ValueError` in the source; here they are the distinct errors `DuplicateRegistration` and `Unsupported`, each carrying the name as written. Their texts are given by `Calculation.Message`.
- `main.py` and the interactive calculator loop it starts are not part of this model.
- Repr: its contract states only the class-name prefix and the closing parenthesis; the full "Class(a=.., b=..)" layout is the function's definition.
