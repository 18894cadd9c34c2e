/**
 * The parts of PHP's semantics the engine relies on: its values, `empty()`,
 * `is_numeric()`, string truthiness, `strtolower`/`strtoupper`, integer to
 * string conversion, `implode` and `sprintf` with `%s` conversions.
 */
module Php {
  import opened OrderedMap

  /**
   * A PHP value. Arrays are ordered maps whose integer keys are written as
   * their decimal strings (PHP turns canonical numeric string keys into
   * integers, so every key has exactly one such spelling). Floats and objects
   * are not part of this model.
   */
  datatype Value =
    | Null
    | Bool(b: bool)
    | Int(i: int)
    | Str(s: string)
    | Arr(a: OrdMap<string, Value>)

  /** PHP's `empty($v)`. */
  predicate IsEmpty(v: Value) {
    match v
    case Null => true
    case Bool(b) => !b
    case Int(i) => i == 0
    case Str(s) => s == "" || s == "0"
    case Arr(a) => a.keys == []
  }

  predicate IsBool(v: Value) {
    v.Bool?
  }

  /** PHP's `is_numeric($v)` on integers and strings. */
  predicate IsNumeric(v: Value) {
    match v
    case Int(_) => true
    case Str(s) => IsNumericString(s)
    case _ => false
  }

  predicate IsWhitespace(c: char) {
    c == ' ' || c == '\t' || c == '\n' || c == '\r' || c == '\U{B}' || c == '\U{C}'
  }

  predicate IsDigit(c: char) {
    '0' <= c <= '9'
  }

  /** The first index at or after `i` that `skip` does not accept. */
  function SkipWhile(s: string, i: nat, skip: char -> bool): (j: nat)
    requires i <= |s|
    ensures i <= j <= |s|
    ensures forall k | i <= k < j :: skip(s[k])
    ensures j < |s| ==> !skip(s[j])
    decreases |s| - i
  {
    if i < |s| && skip(s[i]) then SkipWhile(s, i + 1, skip) else i
  }

  function SkipSign(s: string, i: nat): (j: nat)
    requires i <= |s|
    ensures i <= j <= |s|
  {
    if i < |s| && (s[i] == '+' || s[i] == '-') then i + 1 else i
  }

  /**
   * A numeric string: optional surrounding whitespace, an optional sign,
   * digits with an optional fraction (or a fraction alone), and an optional
   * exponent.
   */
  predicate IsNumericString(s: string) {
    var start := SkipSign(s, SkipWhile(s, 0, IsWhitespace));
    var intEnd := SkipWhile(s, start, IsDigit);
    var hasDot := intEnd < |s| && s[intEnd] == '.';
    var fracEnd := if hasDot then SkipWhile(s, intEnd + 1, IsDigit) else intEnd;
    var mantissa := intEnd > start || (hasDot && fracEnd > intEnd + 1);
    var hasExp := fracEnd < |s| && (s[fracEnd] == 'e' || s[fracEnd] == 'E');
    var expStart := if hasExp then SkipSign(s, fracEnd + 1) else fracEnd;
    var expEnd := if hasExp then SkipWhile(s, expStart, IsDigit) else fracEnd;
    var numberEnd := if hasExp && expEnd > expStart then expEnd else fracEnd;
    mantissa && SkipWhile(s, numberEnd, IsWhitespace) == |s|
  }

  /** The values `foreach ($v as $item)` visits: an array's values in order, nothing for a scalar. */
  function ForeachValues(v: Value): seq<Value> {
    match v
    case Arr(a) => seq(|a.keys|, i requires 0 <= i < |a.keys| => a.GetOr(a.keys[i], Null))
    case _ => []
  }

  /**
   * `$v[$k]` for a read: an array entry (null when missing), a one-character
   * string (empty past the end), null for any other value.
   */
  function Offset(v: Value, k: nat): Value {
    match v
    case Arr(a) => a.GetOr(NatToString(k), Null)
    case Str(s) => if k < |s| then Str([s[k]]) else Str("")
    case _ => Null
  }

  /** A string used as a condition (`if ($s)`): false only for "" and "0". */
  predicate Truthy(s: string) {
    s != "" && s != "0"
  }

  // ---------------------------------------------------------------- case

  function LowerChar(c: char): char {
    if 'A' <= c <= 'Z' then (c as int + 32) as char else c
  }

  function UpperChar(c: char): char {
    if 'a' <= c <= 'z' then (c as int - 32) as char else c
  }

  /** `strtolower`, which since PHP 8.2 maps only the ASCII letters. */
  function ToLower(s: string): (r: string)
    ensures |r| == |s|
    ensures forall i | 0 <= i < |s| :: r[i] == LowerChar(s[i])
  {
    seq(|s|, i requires 0 <= i < |s| => LowerChar(s[i]))
  }

  /** `strtoupper`, ASCII letters only. */
  function ToUpper(s: string): (r: string)
    ensures |r| == |s|
    ensures forall i | 0 <= i < |s| :: r[i] == UpperChar(s[i])
  {
    seq(|s|, i requires 0 <= i < |s| => UpperChar(s[i]))
  }

  lemma ToLowerIdempotent(s: string)
    ensures ToLower(ToLower(s)) == ToLower(s)
  {
  }

  // ---------------------------------------------------------------- integers

  function DigitChar(d: nat): (c: char)
    requires d < 10
    ensures IsDigit(c)
  {
    "0123456789"[d]
  }

  /** `"{$n}"` for a natural number: its decimal digits, most significant first. */
  function NatToString(n: nat): (r: string)
    ensures 1 <= |r|
    ensures n < 10 <==> |r| == 1
    ensures forall i | 0 <= i < |r| :: IsDigit(r[i])
    decreases n
  {
    if n < 10 then [DigitChar(n)] else NatToString(n / 10) + [DigitChar(n % 10)]
  }

  /** Distinct numbers print as distinct strings. */
  lemma {:induction false} NatToStringInjective(a: nat, b: nat)
    requires NatToString(a) == NatToString(b)
    ensures a == b
    decreases a
  {
    var s := NatToString(a);
    if a < 10 {
      assert b < 10;
    } else {
      assert b >= 10;
      assert s[|s| - 1] == DigitChar(a % 10) == DigitChar(b % 10);
      assert s[..|s| - 1] == NatToString(a / 10) == NatToString(b / 10);
      NatToStringInjective(a / 10, b / 10);
    }
  }

  // ---------------------------------------------------------------- strings

  /** `implode($sep, $parts)`. */
  function Implode(sep: string, parts: seq<string>): string {
    if |parts| == 0 then ""
    else if |parts| == 1 then parts[0]
    else parts[0] + sep + Implode(sep, parts[1..])
  }

  /** Two pieces are joined with one separator between them. */
  lemma ImplodeTwo(sep: string, x: string, y: string)
    ensures Implode(sep, [x, y]) == x + sep + y
  {
    assert [x, y][1..] == [y];
  }

  /** `str_starts_with($s, $prefix)`. */
  predicate StartsWith(s: string, prefix: string) {
    |prefix| <= |s| && s[..|prefix|] == prefix
  }

  /**
   * `sprintf($template, ...$args)` for templates whose only conversion is
   * `%s`: each `%s` is replaced by the next argument, everything else is
   * copied. (The engine's templates never run out of arguments; PHP would
   * throw if they did, and this function then substitutes "".)
   */
  function Sprintf(template: string, args: seq<string>): string
    decreases |template|
  {
    if template == [] then ""
    else if |template| >= 2 && template[0] == '%' && template[1] == 's' then
      (if args == [] then "" else args[0]) + Sprintf(template[2..], if args == [] then [] else args[1..])
    else
      [template[0]] + Sprintf(template[1..], args)
  }

  /** Text without a `%` is copied unchanged. */
  lemma {:induction false} SprintfLiteral(lit: string, rest: string, args: seq<string>)
    requires '%' !in lit
    ensures Sprintf(lit + rest, args) == lit + Sprintf(rest, args)
    decreases |lit|
  {
    if lit != [] {
      var t := lit + rest;
      assert t[0] == lit[0] && lit[0] != '%';
      assert t[1..] == lit[1..] + rest;
      calc {
        Sprintf(t, args);
        [t[0]] + Sprintf(t[1..], args);
        { SprintfLiteral(lit[1..], rest, args); }
        [lit[0]] + (lit[1..] + Sprintf(rest, args));
        { assert lit == [lit[0]] + lit[1..]; }
        lit + Sprintf(rest, args);
      }
    } else {
      assert lit + rest == rest;
    }
  }

  /** A `%s` takes the next argument. */
  lemma SprintfHole(rest: string, args: seq<string>)
    requires args != []
    ensures Sprintf("%s" + rest, args) == args[0] + Sprintf(rest, args[1..])
  {
    assert ("%s" + rest)[2..] == rest;
  }

  lemma SprintfEnd(lit: string, args: seq<string>)
    requires '%' !in lit
    ensures Sprintf(lit, args) == lit
  {
    SprintfLiteral(lit, [], args);
    assert lit + [] == lit;
  }

  /** A template with one `%s` between literal text. */
  lemma Render1(l0: string, l1: string, x: string)
    requires '%' !in l0 && '%' !in l1
    ensures Sprintf(l0 + ("%s" + l1), [x]) == l0 + (x + l1)
  {
    calc {
      Sprintf(l0 + ("%s" + l1), [x]);
      { SprintfLiteral(l0, "%s" + l1, [x]); }
      l0 + Sprintf("%s" + l1, [x]);
      { SprintfHole(l1, [x]); assert [x][1..] == []; }
      l0 + (x + Sprintf(l1, []));
      { SprintfEnd(l1, []); }
      l0 + (x + l1);
    }
  }

  /** A template with two `%s`. */
  lemma Render2(l0: string, l1: string, l2: string, x: string, y: string)
    requires '%' !in l0 && '%' !in l1 && '%' !in l2
    ensures Sprintf(l0 + ("%s" + (l1 + ("%s" + l2))), [x, y]) == l0 + (x + (l1 + (y + l2)))
  {
    calc {
      Sprintf(l0 + ("%s" + (l1 + ("%s" + l2))), [x, y]);
      { SprintfLiteral(l0, "%s" + (l1 + ("%s" + l2)), [x, y]); }
      l0 + Sprintf("%s" + (l1 + ("%s" + l2)), [x, y]);
      { SprintfHole(l1 + ("%s" + l2), [x, y]); assert [x, y][1..] == [y]; }
      l0 + (x + Sprintf(l1 + ("%s" + l2), [y]));
      { Render1(l1, l2, y); }
      l0 + (x + (l1 + (y + l2)));
    }
  }

  /** A template with three `%s`. */
  lemma Render3(l0: string, l1: string, l2: string, l3: string, x: string, y: string, z: string)
    requires '%' !in l0 && '%' !in l1 && '%' !in l2 && '%' !in l3
    ensures Sprintf(l0 + ("%s" + (l1 + ("%s" + (l2 + ("%s" + l3))))), [x, y, z])
         == l0 + (x + (l1 + (y + (l2 + (z + l3)))))
  {
    calc {
      Sprintf(l0 + ("%s" + (l1 + ("%s" + (l2 + ("%s" + l3))))), [x, y, z]);
      { SprintfLiteral(l0, "%s" + (l1 + ("%s" + (l2 + ("%s" + l3)))), [x, y, z]); }
      l0 + Sprintf("%s" + (l1 + ("%s" + (l2 + ("%s" + l3)))), [x, y, z]);
      { SprintfHole(l1 + ("%s" + (l2 + ("%s" + l3))), [x, y, z]); assert [x, y, z][1..] == [y, z]; }
      l0 + (x + Sprintf(l1 + ("%s" + (l2 + ("%s" + l3))), [y, z]));
      { Render2(l1, l2, l3, y, z); }
      l0 + (x + (l1 + (y + (l2 + (z + l3)))));
    }
  }
}
