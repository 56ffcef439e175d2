/**
 * Resolution of the `easing` option of a collapsible: a function value is
 * used as it is; a name such as "easeInOutQuad" is split at one of the
 * prefixes "easeInOut", "easeOut", "easeIn" (tried in that order) into a
 * direction ("inOut", "out", "in") and a curve ("quad"), and the host easing
 * library composes them; a name with none of these prefixes is looked up
 * whole.
 *
 * The host easing library is a parameter: `registry` holds its named members
 * (only truthy ones), and `apply(f, x)` stands for calling member `f` on `x`:
 * it either returns a value (`None` for a falsy one) or throws.
 */
module EasingResolver {
  import opened Wrappers

  /** The ordered prefix table. */
  const PREFIXES: seq<string> := ["easeInOut", "easeOut", "easeIn"]

  /** The curve used when a name is a bare prefix ("easeIn"). */
  const DEFAULT_CURVE: string := "ease"

  /** A name split into the host members it refers to. */
  datatype Decoded = Composite(direction: string, curve: string) | Direct(name: string)

  /** The `easing` option: a name, or an opaque function value. */
  datatype EasingSpec<V> = Named(name: string) | Func(f: V)

  datatype EasingError =
    | InvalidEasing(spec: string)   // the thrown 'Invalid easing type "<spec>"'
    | NotCallable(member: string)   // the direction member is missing, so calling it throws
    | CallThrew(member: string)     // the direction member threw, and its exception propagates

  /** The outcome of calling a host easing member: a value (`None` if falsy), or an exception. */
  datatype Call<V> = Returned(value: Option<V>) | Threw

  /** Calling a host easing member on a curve member (or on `undefined`). */
  type Apply<!V> = (V, Option<V>) -> Call<V>

  datatype Result<V> = Ok(value: V) | Err(error: EasingError)

  // ---------------------------------------------------------------------
  // Characters and first-letter case changes (ASCII letters only)

  predicate IsUpper(c: char) { 'A' <= c <= 'Z' }

  predicate IsLower(c: char) { 'a' <= c <= 'z' }

  function ToLower(c: char): char
  {
    if IsUpper(c) then (c as int + 32) as char else c
  }

  function ToUpper(c: char): char
  {
    if IsLower(c) then (c as int - 32) as char else c
  }

  /** `s.substr(0, 1).toLowerCase() + s.substr(1)` */
  function LowerFirst(s: string): (r: string)
    ensures |r| == |s|
    ensures s != [] ==> !IsUpper(r[0]) && r[1..] == s[1..]
  {
    if s == [] then s else [ToLower(s[0])] + s[1..]
  }

  function UpperFirst(s: string): string
  {
    if s == [] then s else [ToUpper(s[0])] + s[1..]
  }

  lemma LowerUpperFirst(s: string)
    requires s != [] ==> !IsUpper(s[0])
    ensures LowerFirst(UpperFirst(s)) == s
  {
  }

  // ---------------------------------------------------------------------
  // Decoding a name

  /** The curve name taken from what follows the prefix: first letter lowered, "ease" if empty. */
  function CurveName(remainder: string): string
  {
    if remainder == "" then DEFAULT_CURVE else LowerFirst(remainder)
  }

  /** The split made once `prefix` has matched `s`. */
  function Split(prefix: string, s: string): Decoded
    requires 5 <= |prefix| <= |s|
  {
    Composite(LowerFirst(prefix[4..]), CurveName(s[|prefix|..]))
  }

  predicate IsDirection(d: string)
  {
    d == "inOut" || d == "out" || d == "in"
  }

  /** No entry of the prefix table from index `i` on is a prefix of `s`. */
  predicate NoPrefixFrom(s: string, i: nat)
  {
    forall j :: i <= j < |PREFIXES| ==> !(PREFIXES[j] <= s)
  }

  predicate NoPrefix(s: string)
  {
    NoPrefixFrom(s, 0)
  }

  /** The decoding of `s` when the table entries before `i` are known not to match. */
  function DecodeFrom(s: string, i: nat): (r: Decoded)
    requires i <= |PREFIXES|
    ensures r.Direct? <==> NoPrefixFrom(s, i)
    ensures r.Direct? ==> r.name == s
    ensures r.Composite? ==> IsDirection(r.direction) && r.curve != "" && !IsUpper(r.curve[0])
    decreases |PREFIXES| - i
  {
    if i == |PREFIXES| then Direct(s)
    else if PREFIXES[i] <= s then
      assert LowerFirst(PREFIXES[i][4..]) == ["inOut", "out", "in"][i];
      Split(PREFIXES[i], s)
    else DecodeFrom(s, i + 1)
  }

  /** The decoding of an easing name. */
  function Decode(s: string): (r: Decoded)
    ensures r.Direct? <==> NoPrefix(s)
    ensures r.Direct? ==> r.name == s
    ensures r.Composite? ==> IsDirection(r.direction) && r.curve != "" && !IsUpper(r.curve[0])
  {
    DecodeFrom(s, 0)
  }

  /** The decoding loop as the component runs it: first matching prefix wins. */
  method DecodeName(name: string) returns (r: Decoded)
    ensures r == Decode(name)
  {
    r := Direct(name);
    for i := 0 to |PREFIXES|
      invariant Decode(name) == DecodeFrom(name, i)
      invariant r == Direct(name)
    {
      var prefix := PREFIXES[i];
      if prefix <= name {
        r := Split(prefix, name);
        return;
      }
    }
  }

  lemma {:induction false} DecodeSkips(s: string, i: nat)
    requires i <= |PREFIXES|
    requires forall j :: 0 <= j < i ==> !(PREFIXES[j] <= s)
    ensures Decode(s) == DecodeFrom(s, i)
  {
    if i > 0 {
      DecodeSkips(s, i - 1);
    }
  }

  /** The first table entry that is a prefix of `s` decides the split. */
  lemma DecodeFirstMatch(s: string, i: nat)
    requires i < |PREFIXES| && PREFIXES[i] <= s
    requires forall j :: 0 <= j < i ==> !(PREFIXES[j] <= s)
    ensures Decode(s) == Split(PREFIXES[i], s)
  {
    DecodeSkips(s, i);
  }

  /** The table spelled out: "easeInOut" is tried before "easeOut", which is tried before "easeIn". */
  lemma DecodeTable(s: string)
    ensures "easeInOut" <= s ==> Decode(s) == Composite("inOut", CurveName(s[9..]))
    ensures !("easeInOut" <= s) && "easeOut" <= s ==> Decode(s) == Composite("out", CurveName(s[7..]))
    ensures !("easeInOut" <= s) && !("easeOut" <= s) && "easeIn" <= s ==> Decode(s) == Composite("in", CurveName(s[6..]))
    ensures !("easeInOut" <= s) && !("easeOut" <= s) && !("easeIn" <= s) ==> Decode(s) == Direct(s)
  {
    if "easeInOut" <= s {
      DecodeFirstMatch(s, 0);
    } else if "easeOut" <= s {
      DecodeFirstMatch(s, 1);
    } else if "easeIn" <= s {
      DecodeFirstMatch(s, 2);
    }
  }

  lemma DecodeInOutQuad()
    ensures Decode("easeInOutQuad") == Composite("inOut", "quad")
  {
    var s := "easeInOutQuad";
    assert "easeInOut" <= s;
    assert s[9..] == "Quad";
    DecodeTable(s);
  }

  lemma DecodeOutCubic()
    ensures Decode("easeOutCubic") == Composite("out", "cubic")
  {
    var s := "easeOutCubic";
    assert !("easeInOut" <= s) by { assert s[4] != "easeInOut"[4]; }
    assert "easeOut" <= s;
    assert s[7..] == "Cubic";
    DecodeTable(s);
  }

  lemma DecodeBareIn()
    ensures Decode("easeIn") == Composite("in", "ease")
  {
    var s := "easeIn";
    assert !("easeOut" <= s) by { assert s[4] != "easeOut"[4]; }
    assert "easeIn" <= s;
    assert s[6..] == "";
    DecodeTable(s);
  }

  lemma DecodeLinear()
    ensures Decode("linear") == Direct("linear")
  {
    var s := "linear";
    assert !("easeInOut" <= s) && !("easeOut" <= s) && !("easeIn" <= s) by { assert s[0] != 'e'; }
    DecodeTable(s);
  }

  // ---------------------------------------------------------------------
  // Encoding: the naming convention that decoding inverts

  /** The name that spells a decoded value: "ease" + Direction + Curve. */
  function Encode(d: Decoded): string
  {
    match d
    case Composite(dir, curve) => "ease" + UpperFirst(dir) + UpperFirst(curve)
    case Direct(name) => name
  }

  /**
   * Decoded values some name spells unambiguously. A curve starting with
   * "out" cannot follow direction "in": "easeInOut..." is read as "inOut".
   */
  predicate WellFormed(d: Decoded)
  {
    match d
    case Composite(dir, curve) =>
      && (dir == "inOut" || dir == "out" || (dir == "in" && !("out" <= curve)))
      && curve != "" && !IsUpper(curve[0])
    case Direct(name) => NoPrefix(name)
  }

  lemma {:induction false} DecodeEncode(d: Decoded)
    requires WellFormed(d)
    ensures Decode(Encode(d)) == d
  {
    match d
    case Direct(name) =>
    case Composite(dir, curve) =>
      var s := Encode(d);
      var u := UpperFirst(curve);
      LowerUpperFirst(curve);
      assert |u| == |curve| > 0;
      if dir == "inOut" {
        assert s == "easeInOut" + u;
        assert s[9..] == u;
        DecodeTable(s);
      } else if dir == "out" {
        assert s == "easeOut" + u;
        assert s[7..] == u;
        assert !("easeInOut" <= s) by { assert s[4] == 'O'; }
        DecodeTable(s);
      } else {
        assert s == "easeIn" + u;
        assert s[6..] == u;
        assert !("easeInOut" <= s);
        assert !("easeOut" <= s) by { assert s[4] == 'I'; }
        DecodeTable(s);
      }
  }

  // ---------------------------------------------------------------------
  // Resolution against the host easing library

  /** A looked-up or composed value, or the error quoting the original name. */
  function Found<V>(v: Option<V>, spec: string): (r: Result<V>)
  {
    if v.Some? then Ok(v.value) else Err(InvalidEasing(spec))
  }

  function Resolve<V>(spec: EasingSpec<V>, registry: map<string, V>, apply: Apply<V>): (r: Result<V>)
    ensures spec.Func? ==> r == Ok(spec.f)
    ensures r.Err? ==> spec.Named?
    ensures r.Err? && r.error.InvalidEasing? ==> r.error.spec == spec.name
    ensures spec.Named? && NoPrefix(spec.name) ==>
              (r.Ok? <==> spec.name in registry) && (r.Ok? ==> r.value == registry[spec.name])
    ensures r.Err? && r.error.NotCallable? ==> !NoPrefix(spec.name) && r.error.member !in registry
    ensures r.Err? && r.error.CallThrew? ==> !NoPrefix(spec.name) && r.error.member in registry
  {
    match spec
    case Func(f) => Ok(f)
    case Named(s) =>
      match Decode(s)
      case Composite(dir, curve) =>
        if dir !in registry then Err(NotCallable(dir))
        else
          (match apply(registry[dir], Get(registry, curve))
           case Threw => Err(CallThrew(dir))
           case Returned(v) => Found(v, s))
      case Direct(name) => Found(Get(registry, name), s)
  }

  /**
   * For a prefixed name, the direction member is called on the curve member
   * (or on `undefined`); its exception propagates, and a falsy result is
   * reported quoting the name.
   */
  lemma ResolveComposite<V>(s: string, registry: map<string, V>, apply: Apply<V>)
    requires !NoPrefix(s)
    ensures var d := Decode(s);
            var r := Resolve(Named(s), registry, apply);
            && (d.direction !in registry ==> r == Err(NotCallable(d.direction)))
            && (d.direction in registry ==>
                 var c := apply(registry[d.direction], Get(registry, d.curve));
                 r == if c.Threw? then Err(CallThrew(d.direction))
                      else if c.value.Some? then Ok(c.value.value)
                      else Err(InvalidEasing(s)))
  {
  }

  /**
   * The falsy check comes after composition, so a prefixed name whose curve
   * the library lacks is accepted whenever the direction member, called on
   * `undefined`, returns something truthy.
   */
  lemma UnknownCurveAccepted<V>(s: string, registry: map<string, V>, apply: Apply<V>)
    requires !NoPrefix(s)
    requires Decode(s).direction in registry && Decode(s).curve !in registry
    requires apply(registry[Decode(s).direction], None).Returned?
    requires apply(registry[Decode(s).direction], None).value.Some?
    ensures Resolve(Named(s), registry, apply) == Ok(apply(registry[Decode(s).direction], None).value.value)
  {
  }

  /** The resolution the component performs before starting an animation. */
  method ResolveEasing<V>(spec: EasingSpec<V>, registry: map<string, V>, apply: Apply<V>)
    returns (r: Result<V>)
    ensures r == Resolve(spec, registry, apply)
  {
    match spec
    case Func(f) =>
      r := Ok(f);
    case Named(name) =>
      var decoded := DecodeName(name);
      var value: Option<V>;
      match decoded {
        case Composite(dir, curve) =>
          if dir !in registry {
            return Err(NotCallable(dir));
          }
          var call := apply(registry[dir], Get(registry, curve));
          if call.Threw? {
            return Err(CallThrew(dir));
          }
          value := call.value;
        case Direct(whole) =>
          value := Get(registry, whole);
      }
      if value.None? {
        r := Err(InvalidEasing(name));
      } else {
        r := Ok(value.value);
      }
  }
}
