/** The Python values that reach the validators and fill the DataFrame's cells, with the
    three Python built-ins the validators lean on: truthiness, `int()` and iteration. */
module PyValues {
  import opened Wrappers
  import opened Dates

  /** A Python object as the pipeline sees it. Inside a DataFrame, `PyNone` also stands
      for pandas' missing markers (NaN, NaT), which `isna` and `fillna` treat alike.
      `PyDateTime` carries the time of day in seconds after midnight. */
  datatype Value =
    | PyNone
    | PyBool(b: bool)
    | PyInt(i: int)
    | PyFloat(x: real)
    | PyStr(s: string)
    | PyDate(date: Date)
    | PyDateTime(date: Date, secondOfDay: nat)
    | PyList(items: seq<Value>)

  /** The exception a Python built-in raises. */
  datatype Raised = ValueError | TypeError | KeyError

  /** `bool(v)`: the falsy values are `None`, `False`, the zeros and the empty string
      and list. */
  function Truthy(v: Value): (b: bool)
    ensures !b <==> v in {PyNone, PyBool(false), PyInt(0), PyFloat(0.0), PyStr(""), PyList([])}
  {
    match v
    case PyNone => false
    case PyBool(b) => b
    case PyInt(i) => i != 0
    case PyFloat(x) => x != 0.0
    case PyStr(s) => s != ""
    case PyDate(_) => true
    case PyDateTime(_, _) => true
    case PyList(xs) => xs != []
  }

  /** The characters `int()` skips at both ends of its text. CPython first turns every
      non-ASCII character that `str.isspace()` accepts into a space and keeps ASCII
      unchanged, then skips only the C white space ' ', '\t', '\n', '\v', '\f' and
      '\r'. The ASCII separators U+001C to U+001F, which `str.isspace()` accepts, are
      therefore not skipped. */
  predicate IsSpace(c: char) {
    || c == ' ' || '\t' <= c <= '\r'
    || c == '\U{0085}' || c == '\U{00a0}' || c == '\U{1680}' || '\U{2000}' <= c <= '\U{200a}'
    || c == '\U{2028}' || c == '\U{2029}' || c == '\U{202f}' || c == '\U{205f}' || c == '\U{3000}'
  }

  function TrimLeft(s: string): (t: string)
    ensures t != [] ==> !IsSpace(t[0])
    ensures |t| <= |s| && t == s[|s| - |t|..]
  {
    if s != [] && IsSpace(s[0]) then TrimLeft(s[1..]) else s
  }

  function TrimRight(s: string): (t: string)
    ensures t != [] ==> !IsSpace(t[|t| - 1])
    ensures |t| <= |s| && t == s[..|t|]
  {
    if s != [] && IsSpace(s[|s| - 1]) then TrimRight(s[..|s| - 1]) else s
  }

  /** The text `int()` reads once the white space at both ends is skipped. */
  function Strip(s: string): (t: string)
    ensures t == [] || (!IsSpace(t[0]) && !IsSpace(t[|t| - 1]))
  {
    TrimRight(TrimLeft(s))
  }

  /** The digits of a base-10 integer literal as `int()` reads them: a digit, then
      digits each optionally preceded by a single underscore. */
  predicate IsDigitGroups(b: string)
    decreases |b|
  {
    && b != [] && IsDigit(b[0])
    && (|b| == 1 || (if b[1] == '_' then IsDigitGroups(b[2..]) else IsDigitGroups(b[1..])))
  }

  function RemoveUnderscores(b: string): (d: string)
    ensures forall k :: 0 <= k < |d| ==> d[k] != '_'
  {
    if b == [] then []
    else RemoveUnderscores(b[..|b| - 1]) + (if b[|b| - 1] == '_' then [] else [b[|b| - 1]])
  }

  /** The value of a string of decimal digits (only digit strings reach it; any other
      character would count as 0). */
  function DigitsValue(d: string): (n: nat) {
    if d == [] then 0
    else 10 * DigitsValue(d[..|d| - 1]) + (if IsDigit(d[|d| - 1]) then DigitValue(d[|d| - 1]) else 0)
  }

  /** Digit groups without a sign. */
  function Unsigned(b: string): (r: Result<int, Raised>)
    ensures r.Err? ==> r.error == ValueError
    ensures r.Ok? ==> 0 <= r.value
  {
    if IsDigitGroups(b) then Ok(DigitsValue(RemoveUnderscores(b))) else Err(ValueError)
  }

  /** An optional sign followed by digit groups, the text `int()` accepts once stripped. */
  function SignedDigits(t: string): (r: Result<int, Raised>)
    ensures r.Err? ==> r.error == ValueError
  {
    if t != [] && (t[0] == '-' || t[0] == '+') then
      match Unsigned(t[1..])
      case Ok(n) => Ok(if t[0] == '-' then -n else n)
      case Err(e) => Err(e)
    else Unsigned(t)
  }

  /** `int(s)` for a string `s`: strip white space, an optional sign, then digit groups;
      anything else raises `ValueError`. */
  function IntOfText(s: string): (r: Result<int, Raised>)
    ensures r.Err? ==> r.error == ValueError
  {
    SignedDigits(Strip(s))
  }

  /** Truncation toward zero, as `int()` applies it to a float. */
  function Truncate(x: real): (n: int)
    ensures 0.0 <= x ==> n as real <= x < n as real + 1.0
    ensures x < 0.0 ==> n as real - 1.0 < x <= n as real
  {
    if x >= 0.0 then x.Floor else -((-x).Floor)
  }

  /** Python's `int(v)`. */
  function IntOf(v: Value): (r: Result<int, Raised>)
    ensures v.PyInt? ==> r == Ok(v.i)
    ensures v.PyBool? ==> r == Ok(if v.b then 1 else 0)
    ensures v.PyFloat? ==> r == Ok(Truncate(v.x))
    ensures v.PyStr? ==> r == IntOfText(v.s)
    ensures (v.PyNone? || v.PyDate? || v.PyDateTime? || v.PyList?) ==> r == Err(TypeError)
  {
    match v
    case PyBool(b) => Ok(if b then 1 else 0)
    case PyInt(i) => Ok(i)
    case PyFloat(x) => Ok(Truncate(x))
    case PyStr(s) => IntOfText(s)
    case _ => Err(TypeError)
  }

  /** The items a `for` loop over `v` visits: a list's items or a string's characters.
      Every other value of this domain is not iterable. */
  function Iterate(v: Value): (r: Result<seq<Value>, Raised>)
    ensures v.PyList? ==> r == Ok(v.items)
    ensures v.PyStr? ==> r.Ok? && |r.value| == |v.s| && forall k :: 0 <= k < |v.s| ==> r.value[k] == PyStr([v.s[k]])
    ensures !v.PyList? && !v.PyStr? ==> r == Err(TypeError)
  {
    match v
    case PyList(xs) => Ok(xs)
    case PyStr(s) => Ok(seq(|s|, k requires 0 <= k < |s| => PyStr([s[k]])))
    case _ => Err(TypeError)
  }

  /** `str(n)` for a natural number. */
  function DecimalText(n: nat): (s: string)
    ensures s != [] && forall k :: 0 <= k < |s| ==> IsDigit(s[k])
  {
    if n < 10 then [DigitChar(n)] else DecimalText(n / 10) + [DigitChar(n % 10)]
  }

  /** `str(n)` for an integer. */
  function IntText(n: int): (s: string)
    ensures s != []
  {
    if n < 0 then "-" + DecimalText(-n) else DecimalText(n)
  }

  lemma {:induction false} DigitsValueOfDecimalText(n: nat)
    ensures DigitsValue(DecimalText(n)) == n
  {
    var s := DecimalText(n);
    if n >= 10 {
      DigitsValueOfDecimalText(n / 10);
      assert s[..|s| - 1] == DecimalText(n / 10);
    }
  }

  lemma {:induction false} NoUnderscoresInDigits(d: string)
    requires forall k :: 0 <= k < |d| ==> IsDigit(d[k])
    ensures RemoveUnderscores(d) == d
  {
    if d != [] {
      NoUnderscoresInDigits(d[..|d| - 1]);
      assert d == d[..|d| - 1] + [d[|d| - 1]];
    }
  }

  lemma StripUnpadded(s: string)
    requires s != [] && !IsSpace(s[0]) && !IsSpace(s[|s| - 1])
    ensures Strip(s) == s
  {
  }

  lemma {:induction false} DigitsAreDigitGroups(d: string)
    requires d != [] && forall k :: 0 <= k < |d| ==> IsDigit(d[k])
    ensures IsDigitGroups(d) && RemoveUnderscores(d) == d
  {
    NoUnderscoresInDigits(d);
    if |d| > 1 {
      assert d[1] != '_';
      DigitsAreDigitGroups(d[1..]);
    }
  }

  lemma UnsignedOfDigits(d: string)
    requires d != [] && forall k :: 0 <= k < |d| ==> IsDigit(d[k])
    ensures Unsigned(d) == Ok(DigitsValue(d) as int)
  {
    DigitsAreDigitGroups(d);
  }

  lemma SignedDigitsOfDigits(d: string, v: int)
    requires d != [] && IsDigit(d[0]) && Unsigned(d) == Ok(v)
    ensures SignedDigits(d) == Ok(v)
  {
  }

  lemma SignedDigitsOfNegative(t: string, v: int)
    requires t != [] && t[0] == '-' && Unsigned(t[1..]) == Ok(v)
    ensures SignedDigits(t) == Ok(-v)
  {
  }

  lemma SignedDigitsOfNegatedDigits(d: string, v: int)
    requires Unsigned(d) == Ok(v)
    ensures SignedDigits("-" + d) == Ok(-v)
  {
    var t := "-" + d;
    assert t[1..] == d;
    SignedDigitsOfNegative(t, v);
  }

  lemma UnsignedOfDecimalText(m: nat)
    ensures Unsigned(DecimalText(m)) == Ok(m)
  {
    DigitsValueOfDecimalText(m);
    UnsignedOfDigits(DecimalText(m));
  }

  lemma DigitIsNotSpace(c: char)
    requires IsDigit(c)
    ensures !IsSpace(c)
  {
  }

  lemma IntOfUnpadded(s: string)
    requires s != [] && !IsSpace(s[0]) && !IsSpace(s[|s| - 1])
    ensures IntOf(PyStr(s)) == SignedDigits(s)
  {
    StripUnpadded(s);
  }

  lemma IntOfDecimalText(m: nat)
    ensures IntOf(PyStr(DecimalText(m))) == Ok(m)
  {
    var d := DecimalText(m);
    assert IntOf(PyStr(d)) == SignedDigits(d) by {
      DigitIsNotSpace(d[0]);
      DigitIsNotSpace(d[|d| - 1]);
      IntOfUnpadded(d);
    }
    assert SignedDigits(d) == Ok(m) by {
      UnsignedOfDecimalText(m);
      SignedDigitsOfDigits(d, m);
    }
  }

  lemma IntOfNegatedDecimalText(m: nat)
    ensures IntOf(PyStr("-" + DecimalText(m))) == Ok(-(m as int))
  {
    var d := DecimalText(m);
    var s := "-" + d;
    assert IntOf(PyStr(s)) == SignedDigits(s) by {
      assert s[0] == '-';
      assert s[|s| - 1] == d[|d| - 1];
      DigitIsNotSpace(d[|d| - 1]);
      IntOfUnpadded(s);
    }
    assert SignedDigits(s) == Ok(-(m as int)) by {
      UnsignedOfDecimalText(m);
      SignedDigitsOfNegatedDigits(d, m);
    }
  }

  /** Text that starts, past any skipped white space, neither with a sign nor with a
      digit is not an integer. */
  lemma IntRejectsNonDigitStart(s: string)
    requires Strip(s) != [] && !IsDigit(Strip(s)[0]) && Strip(s)[0] != '-' && Strip(s)[0] != '+'
    ensures IntOfText(s) == Err(ValueError)
  {
  }

  /** An ASCII separator before the digits makes `int()` fail, although
      `str.isspace()` accepts it. */
  lemma IntRejectsLeadingSeparator()
    ensures IntOfText("\U{001c}7") == Err(ValueError)
  {
    var s := "\U{001c}7";
    assert !IsSpace(s[0]) && !IsSpace(s[1]) && !IsDigit(s[0]);
    UnpaddedNonDigitStart(s);
  }

  lemma UnpaddedNonDigitStart(s: string)
    requires s != [] && !IsSpace(s[0]) && !IsSpace(s[|s| - 1])
    requires !IsDigit(s[0]) && s[0] != '-' && s[0] != '+'
    ensures IntOfText(s) == Err(ValueError)
  {
    StripUnpadded(s);
    IntRejectsNonDigitStart(s);
  }

  lemma {:induction false} DigitGroupsEndInDigit(b: string)
    requires IsDigitGroups(b)
    ensures IsDigit(b[|b| - 1])
    decreases |b|
  {
    if |b| > 1 {
      if b[1] == '_' {
        DigitGroupsEndInDigit(b[2..]);
      } else {
        DigitGroupsEndInDigit(b[1..]);
      }
    }
  }

  /** Text that ends, before any skipped white space, with anything but a digit is not
      an integer. */
  lemma IntRejectsNonDigitEnd(s: string)
    requires Strip(s) != [] && !IsDigit(Strip(s)[|Strip(s)| - 1])
    ensures IntOfText(s) == Err(ValueError)
  {
    var t := Strip(s);
    if IsDigitGroups(t) {
      DigitGroupsEndInDigit(t);
    }
    if |t| > 1 && IsDigitGroups(t[1..]) {
      DigitGroupsEndInDigit(t[1..]);
    }
  }

  /** The same for a separator after the digits. */
  lemma IntRejectsTrailingSeparator()
    ensures IntOfText("7\U{001f}") == Err(ValueError)
  {
    var s := "7\U{001f}";
    assert !IsSpace(s[0]) && !IsSpace(s[1]) && !IsDigit(s[1]);
    StripUnpadded(s);
    IntRejectsNonDigitEnd(s);
  }

  lemma {:induction false} TrimLeftSpaces(p: string, u: string)
    requires forall k :: 0 <= k < |p| ==> IsSpace(p[k])
    requires u == [] || !IsSpace(u[0])
    ensures TrimLeft(p + u) == u
    decreases |p|
  {
    if p == [] {
      assert p + u == u;
    } else {
      assert (p + u)[1..] == p[1..] + u;
      TrimLeftSpaces(p[1..], u);
    }
  }

  lemma {:induction false} TrimRightSpaces(u: string, q: string)
    requires forall k :: 0 <= k < |q| ==> IsSpace(q[k])
    requires u == [] || !IsSpace(u[|u| - 1])
    ensures TrimRight(u + q) == u
    decreases |q|
  {
    if q == [] {
      assert u + q == u;
    } else {
      assert (u + q)[..|u + q| - 1] == u + q[..|q| - 1];
      TrimRightSpaces(u, q[..|q| - 1]);
    }
  }

  lemma StripPadding(p: string, u: string, q: string)
    requires forall k :: 0 <= k < |p| ==> IsSpace(p[k])
    requires forall k :: 0 <= k < |q| ==> IsSpace(q[k])
    requires u != [] && !IsSpace(u[0]) && !IsSpace(u[|u| - 1])
    ensures Strip(p + u + q) == u
  {
    assert (u + q)[0] == u[0];
    assert p + u + q == p + (u + q);
    TrimLeftSpaces(p, u + q);
    TrimRightSpaces(u, q);
  }

  /** White space `int()` skips, on either side of a run of digits, is ignored. */
  lemma IntOfPaddedDigits(p: string, d: string, q: string)
    requires forall k :: 0 <= k < |p| ==> IsSpace(p[k])
    requires forall k :: 0 <= k < |q| ==> IsSpace(q[k])
    requires d != [] && forall k :: 0 <= k < |d| ==> IsDigit(d[k])
    ensures IntOfText(p + d + q) == Ok(DigitsValue(d) as int)
  {
    DigitIsNotSpace(d[0]);
    DigitIsNotSpace(d[|d| - 1]);
    StripPadding(p, d, q);
    UnsignedOfDigits(d);
    SignedDigitsOfDigits(d, DigitsValue(d) as int);
  }

  /** Round trip: `int(str(n)) == n`. */
  lemma IntOfIntText(n: int)
    ensures IntOf(PyStr(IntText(n))) == Ok(n)
  {
    if n < 0 {
      var m: nat := -n;
      assert IntText(n) == "-" + DecimalText(m);
      IntOfNegatedDecimalText(m);
    } else {
      var m: nat := n;
      assert IntText(n) == DecimalText(m);
      IntOfDecimalText(m);
    }
  }

  /** A Python `dict` with string keys, as a mutable object: code holding the same dict
      sees every change made through another reference to it. */
  class PyDict {
    var entries: map<string, Value>

    constructor (entries: map<string, Value>)
      ensures this.entries == entries
    {
      this.entries := entries;
    }

    /** `d.pop(key, None)`: removes `key` if present (an absent key is not an error) and
        returns the removed value, or Python's `None`. */
    method Pop(key: string) returns (removed: Value)
      modifies this
      ensures entries == old(entries) - {key}
      ensures removed == if key in old(entries) then old(entries)[key] else PyNone
    {
      removed := if key in entries then entries[key] else PyNone;
      entries := entries - {key};
    }
  }
}
