/**
  Property keys, JavaScript values and the few language rules the engine
  depends on: strict equality (under which NaN differs from itself), the
  `Number(...)` conversion of keys and values, truthiness, and thrown errors.
*/
module Values {

  /** Identity of a JavaScript object (raw object, wrapper or ref carrier). */
  type ObjId = nat

  datatype Option<+T> = None | Some(value: T)

  /**
    A property key. `Idx(i)` is the canonical decimal string of `i` ("0",
    "17", never "017"), `Length` is the string "length", `Name(s)` any other
    string, `Sym(n)` a symbol and `Iterate` the engine's private
    iteration-marker symbol (ITERATE_KEY).
  */
  datatype PropertyKey =
    | Idx(index: nat)
    | Length
    | Name(name: string)
    | Sym(id: nat)
    | Iterate

  /**
    The keys in canonical form: a string key has exactly one representation,
    so a `Name` never spells a canonical decimal or "length" (those are
    `Idx` and `Length`). Strings such as "-1", "01" or "" stay names.
  */
  type Key = k: PropertyKey | k.Name? ==> CanonicalName(k.name) witness Length

  predicate CanonicalName(s: string) {
    s != "length" && !IsNatString(s)
  }

  predicate IsDigit(c: char) {
    '0' <= c <= '9'
  }

  predicate AllDigits(s: string) {
    |s| == 0 || (IsDigit(s[0]) && AllDigits(s[1..]))
  }

  /** `s` is the canonical decimal string of a natural number. */
  predicate IsNatString(s: string) {
    |s| > 0 && AllDigits(s) && (|s| == 1 || s[0] != '0')
  }

  /** The number a string of decimal digits denotes. */
  function DigitsValue(s: string): nat
    requires AllDigits(s)
  {
    if |s| == 0 then 0
    else
      DigitsPrefix(s);
      DigitsValue(s[..|s| - 1]) * 10 + (s[|s| - 1] as int - '0' as int)
  }

  lemma {:induction false} DigitsPrefix(s: string)
    requires AllDigits(s) && |s| > 0
    ensures AllDigits(s[..|s| - 1]) && IsDigit(s[|s| - 1])
  {
    if |s| > 1 {
      DigitsPrefix(s[1..]);
      assert s[1..][..|s| - 2] == s[..|s| - 1][1..];
    }
  }

  /** The key a string names: its canonical form. */
  function KeyOf(s: string): (r: Key)
    ensures r.Name? <==> CanonicalName(s)
    ensures r.Name? ==> r.name == s
  {
    if s == "length" then Length
    else if IsNatString(s) then Idx(DigitsValue(s))
    else Name(s)
  }

  predicate IsSymbol(k: Key) {
    k.Sym? || k.Iterate?
  }

  /**
    A JavaScript value. Numbers are integers plus the one not-a-number value;
    `Builtin(name)` is a function value such as an instrumented array method.
  */
  datatype Value =
    | Undefined
    | Null
    | Bool(b: bool)
    | Num(n: int)
    | NaN
    | Str(s: string)
    | Obj(id: ObjId)
    | Builtin(name: string)

  /** The result of `Number(x)` when it does not throw. */
  datatype Number = Finite(n: int) | NotANumber

  datatype ErrorKind = TypeError | RangeError

  /** Either a normal result or an exception that propagates to the caller. */
  datatype Completion<+T> = Normal(value: T) | Throw(error: ErrorKind)

  /** `typeof v === 'object' && v !== null` */
  predicate IsObject(v: Value) {
    v.Obj?
  }

  /** JavaScript `a === b`: NaN is the one value not equal to itself. */
  predicate StrictEquals(a: Value, b: Value) {
    a != NaN && b != NaN && a == b
  }

  lemma StrictEqualsIsEqualityExceptNaN(a: Value, b: Value)
    ensures StrictEquals(a, b) <==> a == b && a != NaN
    ensures !StrictEquals(NaN, NaN)
  {
  }

  /**
    `Number(s)` for a string, for the forms written here: the empty string is
    0, and an optional sign followed by decimal digits is that integer; every
    other string is NaN.
  */
  function StringToNumber(s: string): (r: Number)
    ensures AllDigits(s) ==> r == Finite(DigitsValue(s))
  {
    if |s| == 0 then Finite(0)
    else if s[0] == '-' && |s| > 1 && AllDigits(s[1..]) then Finite(0 - DigitsValue(s[1..]) as int)
    else if s[0] == '+' && |s| > 1 && AllDigits(s[1..]) then Finite(DigitsValue(s[1..]))
    else if AllDigits(s) then Finite(DigitsValue(s))
    else NotANumber
  }

  /**
    `Number(k)` for a property key: symbols cannot be converted (TypeError),
    a string key converts as its string does.
  */
  function KeyToNumber(k: Key): (r: Completion<Number>)
    ensures r.Throw? <==> IsSymbol(k)
    ensures r.Throw? ==> r.error == TypeError
    ensures k.Idx? ==> r == Normal(Finite(k.index))
  {
    match k
    case Idx(i) => Normal(Finite(i))
    case Length => Normal(NotANumber)
    case Name(s) => Normal(StringToNumber(s))
    case Sym(_) => Throw(TypeError)
    case Iterate => Throw(TypeError)
  }

  /** `Number(key)` is `Number` of the string the key stands for. */
  lemma KeyNumberIsStringNumber(s: string)
    ensures KeyToNumber(KeyOf(s)) == Normal(StringToNumber(s))
  {
    if s == "length" {
      assert !AllDigits(s);
    } else if IsNatString(s) {
      assert IsDigit(s[0]);
    }
  }

  /** Some numeric names that are not indices: `Number` still converts them. */
  lemma NumericNames()
    ensures KeyToNumber(KeyOf("-1")) == Normal(Finite(-1))
    ensures KeyToNumber(KeyOf("")) == Normal(Finite(0))
    ensures KeyOf("01").Name? && KeyToNumber(KeyOf("01")) == Normal(Finite(1))
    ensures KeyOf("7") == Idx(7)
    ensures KeyToNumber(KeyOf("x")) == Normal(NotANumber)
  {
    assert !AllDigits("-1") && AllDigits("1") && DigitsValue("1") == 1 by {
      assert "-1"[1..] == "1";
    }
    assert AllDigits("01") && DigitsValue("01") == 1 by {
      assert "01"[..1] == "0";
      assert "0"[..0] == "";
    }
    assert IsNatString("7") && DigitsValue("7") == 7 by {
      assert "7"[..0] == "";
    }
  }

  /** `Number(v)` for a value that is compared with a number. */
  function ToNumber(v: Value): Number {
    match v
    case Num(n) => Finite(n)
    case Bool(b) => Finite(if b then 1 else 0)
    case Null => Finite(0)
    case Str(s) => StringToNumber(s)
    case _ => NotANumber
  }

  /** JavaScript truthiness: the value selects the then-branch of an `if`. */
  predicate Truthy(v: Value) {
    match v
    case Undefined => false
    case Null => false
    case Bool(b) => b
    case Num(n) => n != 0
    case NaN => false
    case Str(s) => s != ""
    case Obj(_) => true
    case Builtin(_) => true
  }
}
