/** Values shared by every part of the model: optional values, error results, and the
    dynamically typed cells that pandas, polars and the dashboard's JSON store hold. */
module Common {

  datatype Option<T> = None | Some(value: T)

  datatype Result<T, E> = Success(value: T) | Failure(error: E)

  /** One cell of a data frame or of a JSON-stored row: missing (None, SQL NULL), text or an
      integer. These are the only kinds of value the dashboards move between callbacks. */
  datatype Cell = Null | Str(s: string) | Int(i: int)

  /** Python's truth value of a cell: None, "" and 0 are false, everything else is true. */
  predicate Truthy(c: Cell)
    ensures !Truthy(c) <==> c == Null || c == Str("") || c == Int(0)
  {
    match c
    case Null => false
    case Str(s) => s != ""
    case Int(i) => i != 0
  }

  function DigitChar(d: nat): (c: char)
    requires d < 10
    ensures '0' <= c <= '9'
  {
    ('0' as int + d) as char
  }

  /** Decimal digits of a natural number, most significant first, no leading zeros. */
  function NatToString(n: nat): (s: string)
    ensures |s| >= 1
    ensures forall k :: 0 <= k < |s| ==> '0' <= s[k] <= '9'
    ensures n > 0 ==> s[0] != '0'
    decreases n
  {
    if n < 10 then [DigitChar(n)] else NatToString(n / 10) + [DigitChar(n % 10)]
  }

  /** Python's str() of an integer. */
  function IntToString(i: int): (s: string)
    ensures |s| >= 1
    ensures (s[0] == '-') <==> i < 0
  {
    if i < 0 then "-" + NatToString(-i) else NatToString(i)
  }

  /** Python's str() of a cell. */
  function PyStr(c: Cell): (s: string)
    ensures c.Str? ==> s == c.s
    ensures c.Null? ==> s == "None"
    ensures c.Int? ==> ParseInt(s) == Some(c.i) && (s[0] == '-' <==> c.i < 0)
  {
    match c
    case Null => "None"
    case Str(s) => s
    case Int(i) => ParseIntOfIntToString(i); IntToString(i)
  }

  /** One row of a data frame or of a list of dicts: column name to cell. */
  type Row = map<string, Cell>

  /** `row.get(key, default)`. */
  function Get(row: Row, key: string, default: Cell): (c: Cell)
    ensures key in row ==> c == row[key]
    ensures key !in row ==> c == default
  {
    if key in row then row[key] else default
  }

  function DigitValue(c: char): (d: nat)
    requires '0' <= c <= '9'
    ensures d < 10 && DigitChar(d) == c
  {
    c as int - '0' as int
  }

  /** The value of a non-empty string of decimal digits. */
  function ParseDigits(s: string): (r: Option<nat>)
    ensures r.Some? <==> |s| >= 1 && forall k :: 0 <= k < |s| ==> '0' <= s[k] <= '9'
    decreases |s|
  {
    if s == [] || !('0' <= s[|s| - 1] <= '9') then None
    else if |s| == 1 then Some(DigitValue(s[0]))
    else
      match ParseDigits(s[..|s| - 1])
      case None => None
      case Some(n) => Some(n * 10 + DigitValue(s[|s| - 1]))
  }

  /** Every character is a decimal digit. */
  predicate AllDigits(s: string)
  {
    forall k :: 0 <= k < |s| ==> '0' <= s[k] <= '9'
  }

  /** Python's int() of a string: an optional sign and decimal digits. */
  function ParseInt(s: string): (r: Option<int>)
    ensures r.Some? <==>
      (|s| >= 1 && AllDigits(s)) || (|s| >= 2 && (s[0] == '-' || s[0] == '+') && AllDigits(s[1..]))
    ensures r.Some? && s[0] == '-' ==> r.value <= 0
    ensures r.Some? && s[0] != '-' ==> r.value >= 0
  {
    if |s| >= 1 && s[0] == '-' then
      match ParseDigits(s[1..]) case None => None case Some(n) => Some(0 - n)
    else if |s| >= 1 && s[0] == '+' then
      match ParseDigits(s[1..]) case None => None case Some(n) => Some(n)
    else
      match ParseDigits(s) case None => None case Some(n) => Some(n)
  }

  lemma {:induction false} ParseDigitsOfNatToString(n: nat)
    ensures ParseDigits(NatToString(n)) == Some(n)
    decreases n
  {
    if n >= 10 {
      ParseDigitsOfNatToString(n / 10);
      ParseDigitsSnoc(NatToString(n / 10), n / 10, DigitChar(n % 10));
      assert (n / 10) * 10 + n % 10 == n;
    }
  }

  /** Appending a digit multiplies the value by ten and adds the digit. */
  lemma ParseDigitsSnoc(p: string, m: nat, c: char)
    requires ParseDigits(p) == Some(m) && '0' <= c <= '9'
    ensures ParseDigits(p + [c]) == Some(m * 10 + DigitValue(c))
  {
    var s := p + [c];
    assert |s| >= 2 && s[..|s| - 1] == p && s[|s| - 1] == c;
  }

  lemma ParseIntUnsigned(d: string, n: nat)
    requires ParseDigits(d) == Some(n)
    ensures ParseInt(d) == Some(n)
  {
    assert '0' <= d[0] <= '9';
  }

  lemma ParseIntNegative(d: string, n: nat)
    requires ParseDigits(d) == Some(n)
    ensures ParseInt("-" + d) == Some(0 - n)
  {
    assert ("-" + d)[1..] == d;
  }

  /** int(str(i)) == i. */
  lemma ParseIntOfIntToString(i: int)
    ensures ParseInt(IntToString(i)) == Some(i)
  {
    if i < 0 {
      ParseDigitsOfNatToString(-i);
      ParseIntNegative(NatToString(-i), -i);
    } else {
      ParseDigitsOfNatToString(i);
      ParseIntUnsigned(NatToString(i), i);
    }
  }

  function Min(a: int, b: int): (m: int)
    ensures m <= a && m <= b && (m == a || m == b)
  {
    if a <= b then a else b
  }
}
