/** The pieces of JavaScript semantics the proxies' rate limiter relies on: what `++` and `>`
    do to the values a rate-table element can hold, what `t[i]++` does to an array for every
    number `i`, how `parseInt` reads a cookie value and how a counter is written into one. */
module Js {

  datatype Option<+T> = None | Some(value: T)

  /** A value held by an element of a rate table. */
  datatype Slot =
    | Num(n: int)  // a number (the counters only ever hold integers)
    | EmptyArr     // the array literal `[]`, which converts to the number 0
    | Hole         // an element never written, left behind when the array grew past it; reads as undefined
    | NaN

  /** The value `v++` stores back. */
  function Incremented(v: Slot): (r: Slot)
    ensures r.Num? <==> v.Num? || v.EmptyArr?
    ensures r.Num? ==> r.n == (if v.Num? then v.n else 0) + 1
    ensures !r.Num? ==> r == NaN
  {
    match v
    case Num(n) => Num(n + 1)
    case EmptyArr => Num(1)
    case Hole => NaN  // undefined converts to NaN
    case NaN => NaN
  }

  /** `v > k` for a number `k`: a comparison with NaN or undefined is false. */
  predicate GreaterThan(v: Slot, k: int)
    ensures GreaterThan(v, k) ==> v.Num? || v.EmptyArr?
    ensures k >= 0 ==> (GreaterThan(v, k) <==> v.Num? && v.n > k)
  {
    match v
    case Num(n) => n > k
    case EmptyArr => 0 > k
    case _ => false
  }

  /** The largest array index: 2^32 - 2. A larger key names an ordinary property. */
  const MAX_ARRAY_INDEX := 0xFFFF_FFFE

  /** The greatest length an array can have: 2^32 - 1. Making an array longer (a `push` onto
      an array of this length) throws a RangeError. */
  const MAX_ARRAY_LENGTH := MAX_ARRAY_INDEX + 1

  function Holes(n: nat): (r: seq<Slot>)
    ensures |r| == n && forall j :: 0 <= j < n ==> r[j] == Hole
  {
    seq(n, _ => Hole)
  }

  /** The array after `t[index]++` and the value that element then holds. */
  datatype Bumped = Bumped(table: seq<Slot>, value: Slot)

  /** `t[index]++` where `index` is the result of `parseInt` (None is NaN). An index inside the
      array bumps that element; an index past the end but still an array index grows the array
      with holes up to it and stores NaN there; any other key (NaN, a negative number, a number
      beyond the last array index) is an ordinary property, which holds NaN after the first
      `++` and every later one, and leaves the elements alone. */
  function PostIncrementAt(t: seq<Slot>, index: Option<int>): (r: Bumped)
    ensures |r.table| >= |t|
    ensures forall j :: 0 <= j < |t| && index != Some(j) ==> r.table[j] == t[j]
    ensures index.Some? && 0 <= index.value < |t| ==>
              |r.table| == |t| && r.value == r.table[index.value] == Incremented(t[index.value])
    ensures !(index.Some? && 0 <= index.value < |t|) ==> r.value == NaN
    ensures |r.table| > |t| ==> index.Some? && |r.table| == index.value + 1 && r.table[index.value] == NaN
    ensures index.Some? && |t| <= index.value <= MAX_ARRAY_INDEX ==>
              && |r.table| == index.value + 1 && r.table[index.value] == NaN
              && forall j :: |t| <= j < index.value ==> r.table[j] == Hole
    ensures index.None? || index.value < 0 || (index.value >= |t| && index.value > MAX_ARRAY_INDEX) ==>
              r.table == t
    ensures |t| <= MAX_ARRAY_LENGTH ==> |r.table| <= MAX_ARRAY_LENGTH
  {
    if index.Some? && 0 <= index.value < |t| then
      var v := Incremented(t[index.value]);
      Bumped(t[index.value := v], v)
    else if index.Some? && |t| <= index.value <= MAX_ARRAY_INDEX then
      Bumped(t + Holes(index.value - |t|) + [NaN], NaN)
    else
      Bumped(t, NaN)
  }

  /** A value the comparison with the quota can ever accept: only a number does. */
  lemma {:induction false} OnlyNumbersExceed(t: seq<Slot>, index: Option<int>, k: int)
    requires k >= 0
    requires GreaterThan(PostIncrementAt(t, index).value, k)
    ensures index.Some? && 0 <= index.value < |t|
    ensures PostIncrementAt(t, index).value.Num?
  {
  }

  // ---------------------------------------------------------------- parseInt

  /** The white space and line terminators `parseInt` skips before the number. */
  predicate IsSpace(c: char) {
    || c == ' '
    || '\t' <= c <= '\r'            // tab, line feed, vertical tab, form feed, carriage return
    || c == '\U{00A0}' || c == '\U{1680}'
    || '\U{2000}' <= c <= '\U{200A}'
    || c == '\U{2028}' || c == '\U{2029}'
    || c == '\U{202F}' || c == '\U{205F}' || c == '\U{3000}' || c == '\U{FEFF}'
  }

  predicate IsDecimalDigit(c: char) { '0' <= c <= '9' }

  predicate IsHexDigit(c: char) { IsDecimalDigit(c) || 'a' <= c <= 'f' || 'A' <= c <= 'F' }

  function DigitValue(c: char): (r: nat)
    requires IsHexDigit(c)
    ensures IsDecimalDigit(c) ==> r < 10
    ensures r < 16
  {
    if IsDecimalDigit(c) then c as int - '0' as int
    else if 'a' <= c <= 'f' then c as int - 'a' as int + 10
    else c as int - 'A' as int + 10
  }

  predicate IsDigitOf(c: char, radix: nat) {
    if radix == 16 then IsHexDigit(c) else IsDecimalDigit(c)
  }

  function TrimStart(s: string): (r: string)
    ensures |r| <= |s| && r == s[|s| - |r|..]
    ensures r == [] || !IsSpace(r[0])
  {
    if s != [] && IsSpace(s[0]) then
      var r := TrimStart(s[1..]);
      assert s[1..][|s| - 1 - |r|..] == s[|s| - |r|..];
      r
    else s
  }

  /** The longest prefix of `s` made of digits of `radix` (10 or 16). */
  function DigitPrefix(s: string, radix: nat): (r: string)
    ensures |r| <= |s| && r == s[..|r|]
    ensures forall j :: 0 <= j < |r| ==> IsDigitOf(r[j], radix)
    ensures |r| == |s| || !IsDigitOf(s[|r|], radix)
  {
    if s != [] && IsDigitOf(s[0], radix) then [s[0]] + DigitPrefix(s[1..], radix) else []
  }

  /** The value of a string of digits of `radix`, most significant first. */
  function DigitsValue(d: string, radix: nat): nat
    requires radix == 10 || radix == 16
    requires forall j :: 0 <= j < |d| ==> IsDigitOf(d[j], radix)
  {
    if d == [] then 0
    else
      assert IsDigitOf(d[|d| - 1], radix);
      DigitsValue(d[..|d| - 1], radix) * radix + DigitValue(d[|d| - 1])
  }

  /** `parseInt(s)` without a radix; None is NaN. Leading white space is skipped, then one
      optional sign, then a `0x`/`0X` prefix switches to hexadecimal; the longest run of digits
      that follows is the number, and no digit at all is NaN. (Numbers are read exactly: beyond
      2^53 JavaScript rounds, but such a number is not an array index either way.) */
  function ParseInt(s: string): (r: Option<int>)
    ensures r.Some? ==>
              var t := TrimStart(s);
              && t != []
              && (IsDecimalDigit(t[0]) || t[0] == '-' || t[0] == '+')
              && (r.value < 0 ==> t[0] == '-')
    ensures var t := TrimStart(s);
      t != [] && IsDecimalDigit(t[0]) && !(|t| >= 2 && t[0] == '0' && (t[1] == 'x' || t[1] == 'X')) ==>
        r.Some? && r.value >= 0
  {
    var t := TrimStart(s);
    var sign := if t != [] && t[0] == '-' then -1 else 1;
    var u := if t != [] && (t[0] == '-' || t[0] == '+') then t[1..] else t;
    var hex := |u| >= 2 && u[0] == '0' && (u[1] == 'x' || u[1] == 'X');
    var radix := if hex then 16 else 10;
    var d := DigitPrefix(if hex then u[2..] else u, radix);
    if d == [] then None else Some(sign * DigitsValue(d, radix))
  }

  // ---------------------------------------------------------- number to string

  function DigitChar(n: nat): (c: char)
    requires n < 10
    ensures IsDecimalDigit(c) && DigitValue(c) == n
  {
    ('0' as int + n) as char
  }

  /** How `'webproxy=' + idCounter` writes a counter: plain decimal digits. */
  function DecimalString(n: nat): (s: string)
    ensures s != [] && forall j :: 0 <= j < |s| ==> IsDecimalDigit(s[j])
    ensures |s| >= 2 ==> s[0] != '0'
  {
    if n < 10 then [DigitChar(n)] else DecimalString(n / 10) + [DigitChar(n % 10)]
  }

  lemma {:induction false} DecimalValue(n: nat)
    ensures DigitsValue(DecimalString(n), 10) == n
  {
    var s := DecimalString(n);
    if n >= 10 {
      DecimalValue(n / 10);
      assert s[..|s| - 1] == DecimalString(n / 10);
    }
  }

  lemma {:induction false} DigitPrefixWhole(s: string, radix: nat)
    requires forall j :: 0 <= j < |s| ==> IsDigitOf(s[j], radix)
    ensures DigitPrefix(s, radix) == s
  {
    if s != [] {
      DigitPrefixWhole(s[1..], radix);
    }
  }

  /** The id written into a `webproxy` cookie reads back as the same id. */
  lemma ParseIntOfDecimal(n: nat)
    ensures ParseInt(DecimalString(n)) == Some(n)
  {
    var s := DecimalString(n);
    DigitIsNotSpace(s[0]);
    assert TrimStart(s) == s;
    assert s[0] != '-' && s[0] != '+';
    assert |s| >= 2 ==> IsDecimalDigit(s[1]) && s[1] != 'x' && s[1] != 'X';
    DigitPrefixWhole(s, 10);
    DecimalValue(n);
  }

  lemma DigitIsNotSpace(c: char)
    requires IsDecimalDigit(c)
    ensures !IsSpace(c)
  {
  }

  /** A cookie value that starts with anything but white space, a sign or a digit is NaN. */
  lemma ParseIntNonNumeric(s: string)
    requires s == [] || (!IsSpace(s[0]) && s[0] != '-' && s[0] != '+' && !IsDecimalDigit(s[0]))
    ensures ParseInt(s) == None
  {
    assert TrimStart(s) == s;
  }
}
