/**
 * The validator registry: one predicate per type tag ("string", "number",
 * "boolean", "array"). Each predicate checks the runtime kind of a value and
 * then the optional bounds of its options bag. A bound is applied only when
 * it is truthy, so a bound of 0 is the same as no bound at all.
 */
module Validators {
  import opened Wrappers

  /** A JavaScript value as far as the validators can tell kinds apart. */
  datatype Value =
    | Str(s: string)
    | Num(n: real)          // any number except NaN
    | NaN                   // `typeof` says 'number', `isNaN` says true
    | Bool(b: bool)
    | Arr(elems: seq<Value>)
    | Null
    | Undefined
    | Other                 // objects, functions, symbols, ...

  /** A compiled regular expression; `test` is its match-anywhere test. */
  datatype Regex = Regex(source: string, test: string -> bool)

  /** The options bag of a field rule; each key may be missing. */
  datatype Options = Options(
    minLength: Option<real>,
    maxLength: Option<real>,
    pattern: Option<Regex>,
    min: Option<real>,
    max: Option<real>)

  /** The four entries of the registry. */
  datatype Kind = StringKind | NumberKind | BooleanKind | ArrayKind

  /** `options && options.<bound>` is truthy: the key is there and is not 0. */
  predicate Truthy(bound: Option<real>)
    ensures Truthy(bound) ==> bound.Some?
    ensures bound.None? || bound == Some(0.0) ==> !Truthy(bound)
    ensures bound.Some? && bound.value < 0.0 ==> Truthy(bound)
  {
    bound.Some? && bound.value != 0.0
  }

  function MinLength(options: Option<Options>): Option<real> {
    if options.Some? then options.value.minLength else None
  }

  function MaxLength(options: Option<Options>): Option<real> {
    if options.Some? then options.value.maxLength else None
  }

  function Pattern(options: Option<Options>): Option<Regex> {
    if options.Some? then options.value.pattern else None
  }

  function Min(options: Option<Options>): Option<real> {
    if options.Some? then options.value.min else None
  }

  function Max(options: Option<Options>): Option<real> {
    if options.Some? then options.value.max else None
  }

  // ---------------------------------------------------------------------
  // The four predicates, guard by guard as the registry writes them.
  // ---------------------------------------------------------------------

  function StringValidator(v: Value, options: Option<Options>): (ok: bool)
    ensures ok ==> v.Str?
    ensures ok && Pattern(options).Some? ==> Pattern(options).value.test(v.s)
  {
    if !v.Str? then false
    else if Truthy(MinLength(options)) && (|v.s| as real) < MinLength(options).value then false
    else if Truthy(MaxLength(options)) && (|v.s| as real) > MaxLength(options).value then false
    else if Pattern(options).Some? && !Pattern(options).value.test(v.s) then false
    else true
  }

  function NumberValidator(v: Value, options: Option<Options>): (ok: bool)
    ensures ok ==> v.Num?
  {
    if !v.Num? then false
    else if Truthy(Min(options)) && v.n < Min(options).value then false
    else if Truthy(Max(options)) && v.n > Max(options).value then false
    else true
  }

  /** Takes no options: whatever bag the caller passes, the reference verdict is the same. */
  function BooleanValidator(v: Value): (ok: bool)
    ensures forall options :: ok == Conforms(BooleanKind, v, options)
  {
    v.Bool?
  }

  function ArrayValidator(v: Value, options: Option<Options>): (ok: bool)
    ensures ok ==> v.Arr?
  {
    if !v.Arr? then false
    else if Truthy(MinLength(options)) && (|v.elems| as real) < MinLength(options).value then false
    else if Truthy(MaxLength(options)) && (|v.elems| as real) > MaxLength(options).value then false
    else true
  }

  // ---------------------------------------------------------------------
  // The registry: `validators[type]`.
  // ---------------------------------------------------------------------

  /** The key under which a predicate is registered. */
  function Name(kind: Kind): string {
    match kind
    case StringKind => "string"
    case NumberKind => "number"
    case BooleanKind => "boolean"
    case ArrayKind => "array"
  }

  /** Looks a type tag up in the registry; `None` is the missing entry. */
  function Lookup(tag: string): (r: Option<Kind>)
    ensures r.Some? ==> Name(r.value) == tag
    ensures forall kind :: Name(kind) == tag ==> r == Some(kind)
  {
    if tag == "string" then Some(StringKind)
    else if tag == "number" then Some(NumberKind)
    else if tag == "boolean" then Some(BooleanKind)
    else if tag == "array" then Some(ArrayKind)
    else None
  }

  // ---------------------------------------------------------------------
  // A declarative reference: a value is admitted exactly when it has the
  // right kind and meets every constraint its options enforce.
  // ---------------------------------------------------------------------

  /** One constraint an options bag can impose. */
  datatype Constraint =
    | LengthAtLeast(bound: real)
    | LengthAtMost(bound: real)
    | Matches(re: Regex)
    | AtLeast(bound: real)
    | AtMost(bound: real)

  /** Element count of a string or an array. */
  function Length(v: Value): nat {
    match v
    case Str(s) => |s|
    case Arr(elems) => |elems|
    case _ => 0
  }

  predicate Satisfies(v: Value, c: Constraint) {
    match c
    case LengthAtLeast(n) => Length(v) as real >= n
    case LengthAtMost(n) => Length(v) as real <= n
    case Matches(re) => v.Str? && re.test(v.s)
    case AtLeast(x) => v.Num? && v.n >= x
    case AtMost(x) => v.Num? && v.n <= x
  }

  predicate HasKind(v: Value, kind: Kind) {
    match kind
    case StringKind => v.Str?
    case NumberKind => v.Num?
    case BooleanKind => v.Bool?
    case ArrayKind => v.Arr?
  }

  // Each bound enters the list only when it is truthy: a bound of 0 is dropped.

  function MinLengthRule(options: Option<Options>): seq<Constraint> {
    if Truthy(MinLength(options)) then [LengthAtLeast(MinLength(options).value)] else []
  }

  function MaxLengthRule(options: Option<Options>): seq<Constraint> {
    if Truthy(MaxLength(options)) then [LengthAtMost(MaxLength(options).value)] else []
  }

  function PatternRule(options: Option<Options>): seq<Constraint> {
    if Pattern(options).Some? then [Matches(Pattern(options).value)] else []
  }

  function MinRule(options: Option<Options>): seq<Constraint> {
    if Truthy(Min(options)) then [AtLeast(Min(options).value)] else []
  }

  function MaxRule(options: Option<Options>): seq<Constraint> {
    if Truthy(Max(options)) then [AtMost(Max(options).value)] else []
  }

  /** The constraints that the options bag enforces on a value of the given kind. */
  function Enforced(kind: Kind, options: Option<Options>): seq<Constraint> {
    match kind
    case StringKind => MinLengthRule(options) + MaxLengthRule(options) + PatternRule(options)
    case NumberKind => MinRule(options) + MaxRule(options)
    case BooleanKind => []
    case ArrayKind => MinLengthRule(options) + MaxLengthRule(options)
  }

  predicate AllSatisfied(v: Value, cs: seq<Constraint>) {
    forall i :: 0 <= i < |cs| ==> Satisfies(v, cs[i])
  }

  predicate Conforms(kind: Kind, v: Value, options: Option<Options>) {
    HasKind(v, kind) && AllSatisfied(v, Enforced(kind, options))
  }

  lemma AllSatisfiedAppend(v: Value, a: seq<Constraint>, b: seq<Constraint>)
    ensures AllSatisfied(v, a + b) <==> AllSatisfied(v, a) && AllSatisfied(v, b)
  {
    if AllSatisfied(v, a) && AllSatisfied(v, b) {
      forall i | 0 <= i < |a + b| ensures Satisfies(v, (a + b)[i]) {
        if i >= |a| { assert (a + b)[i] == b[i - |a|]; }
      }
    }
    if AllSatisfied(v, a + b) {
      forall i | 0 <= i < |a| ensures Satisfies(v, a[i]) {
        assert (a + b)[i] == a[i];
      }
      forall i | 0 <= i < |b| ensures Satisfies(v, b[i]) {
        assert (a + b)[|a| + i] == b[i];
      }
    }
  }

  lemma AllSatisfiedRule(v: Value, cs: seq<Constraint>)
    requires |cs| <= 1
    ensures AllSatisfied(v, cs) <==> cs == [] || Satisfies(v, cs[0])
  {
  }

  lemma StringConforms(v: Value, options: Option<Options>)
    ensures StringValidator(v, options) == Conforms(StringKind, v, options)
  {
    AllSatisfiedRule(v, MinLengthRule(options));
    AllSatisfiedRule(v, MaxLengthRule(options));
    AllSatisfiedRule(v, PatternRule(options));
    AllSatisfiedAppend(v, MinLengthRule(options), MaxLengthRule(options));
    AllSatisfiedAppend(v, MinLengthRule(options) + MaxLengthRule(options), PatternRule(options));
  }

  lemma NumberConforms(v: Value, options: Option<Options>)
    ensures NumberValidator(v, options) == Conforms(NumberKind, v, options)
  {
    AllSatisfiedRule(v, MinRule(options));
    AllSatisfiedRule(v, MaxRule(options));
    AllSatisfiedAppend(v, MinRule(options), MaxRule(options));
  }

  lemma ArrayConforms(v: Value, options: Option<Options>)
    ensures ArrayValidator(v, options) == Conforms(ArrayKind, v, options)
  {
    AllSatisfiedRule(v, MinLengthRule(options));
    AllSatisfiedRule(v, MaxLengthRule(options));
    AllSatisfiedAppend(v, MinLengthRule(options), MaxLengthRule(options));
  }

  /** Runs the registered predicate of `kind`: `validator(value, options)`. */
  function Check(kind: Kind, v: Value, options: Option<Options>): (ok: bool)
    ensures ok == Conforms(kind, v, options)
  {
    match kind
    case StringKind => StringConforms(v, options); StringValidator(v, options)
    case NumberKind => NumberConforms(v, options); NumberValidator(v, options)
    case BooleanKind => BooleanValidator(v)
    case ArrayKind => ArrayConforms(v, options); ArrayValidator(v, options)
  }

  // ---------------------------------------------------------------------
  // Properties of the predicates.
  // ---------------------------------------------------------------------

  /** No options, or only falsy bounds and no pattern: every string passes. */
  lemma StringUnconstrained(v: Value, options: Option<Options>)
    requires !Truthy(MinLength(options)) && !Truthy(MaxLength(options)) && Pattern(options).None?
    ensures StringValidator(v, options) <==> v.Str?
  {
  }

  /** A truthy `minLength` rejects shorter strings, a truthy `maxLength` longer ones. */
  lemma StringLengthBounds(s: string, options: Option<Options>)
    ensures Truthy(MinLength(options)) && (|s| as real) < MinLength(options).value
            ==> !StringValidator(Str(s), options)
    ensures Truthy(MaxLength(options)) && (|s| as real) > MaxLength(options).value
            ==> !StringValidator(Str(s), options)
  {
  }

  /** Non-numbers and NaN are rejected whatever the options. */
  lemma NumberRejectsNonNumbers(v: Value, options: Option<Options>)
    ensures !v.Num? ==> !NumberValidator(v, options)
  {
  }

  /** A truthy bound rejects values outside it; `min: 0` and `max: 0` constrain nothing. */
  lemma NumberBounds(x: real, options: Option<Options>)
    ensures Truthy(Min(options)) && x < Min(options).value ==> !NumberValidator(Num(x), options)
    ensures Truthy(Max(options)) && x > Max(options).value ==> !NumberValidator(Num(x), options)
    ensures !Truthy(Min(options)) && !Truthy(Max(options)) ==> NumberValidator(Num(x), options)
  {
  }

  /** The boolean predicate ignores its options. */
  lemma BooleanIgnoresOptions(v: Value, options: Option<Options>)
    ensures Check(BooleanKind, v, options) <==> v.Bool?
  {
  }

  /** Arrays: a truthy bound limits the element count; 0 is treated as absent. */
  lemma ArrayBounds(elems: seq<Value>, options: Option<Options>)
    ensures Truthy(MinLength(options)) && (|elems| as real) < MinLength(options).value
            ==> !ArrayValidator(Arr(elems), options)
    ensures Truthy(MaxLength(options)) && (|elems| as real) > MaxLength(options).value
            ==> !ArrayValidator(Arr(elems), options)
    ensures !Truthy(MinLength(options)) && !Truthy(MaxLength(options))
            ==> ArrayValidator(Arr(elems), options)
  {
  }

  /** Replaces every bound that is 0 by a missing key. */
  function DropZeroBounds(options: Option<Options>): (r: Option<Options>)
    ensures forall kind :: Enforced(kind, r) == Enforced(kind, options)
  {
    match options
    case None => None
    case Some(o) =>
      Some(o.(minLength := Drop(o.minLength), maxLength := Drop(o.maxLength),
              min := Drop(o.min), max := Drop(o.max)))
  }

  function Drop(bound: Option<real>): Option<real> {
    if Truthy(bound) then bound else None
  }

  /** The falsy-zero quirk: a bound of 0 behaves exactly like a missing bound. */
  lemma ZeroBoundIsAbsent(kind: Kind, v: Value, options: Option<Options>)
    ensures Check(kind, v, options) == Check(kind, v, DropZeroBounds(options))
  {
  }
}
