/** Durations written as numbers with units, such as `1h30m` or `1.5s`. */
module Duration {
  import opened Wrappers
  import opened Text

  const MAX_NANOS := 0x7fff_ffff_ffff_ffff
  const U128_MAX := 0xffff_ffff_ffff_ffff_ffff_ffff_ffff_ffff

  // ----- one component, in unbounded arithmetic

  /** The nanoseconds of the unit that `s` begins with, and the length of its name. */
  function ReadUnit(s: string): (r: Option<(nat, nat)>)
    ensures r.Some? ==> r.value.0 > 0 && r.value.1 <= |s|
  {
    var beforeS := |s| >= 2 && s[1] == 's';
    if beforeS && s[0] == 'm' then Some((1_000_000, 2))
    else if beforeS && s[0] in ['u', '\U{B5}', '\U{3BC}'] then Some((1_000, 2))
    else if beforeS && s[0] == 'n' then Some((1, 2))
    else if s != "" && s[0] == 's' then Some((1_000_000_000, 1))
    else if s != "" && s[0] == 'm' then Some((60_000_000_000, 1))
    else if s != "" && s[0] == 'h' then Some((3_600_000_000_000, 1))
    else None
  }

  function DigitRun(s: string): (n: nat)
    ensures n <= |s| && AllDigits(s[..n]) && (n < |s| ==> !IsDigit(s[n]))
  {
    if s == "" || !IsDigit(s[0]) then 0
    else
      var n := 1 + DigitRun(s[1..]);
      assert s[..n] == [s[0]] + s[1..][..n - 1];
      n
  }

  /** Each further digit counts a tenth of the previous scale, rounded down. */
  function FractionNanos(digits: string, scale: nat): nat
    requires AllDigits(digits)
  {
    if digits == "" then 0 else Digit(digits[0]) * (scale / 10) + FractionNanos(digits[1..], scale / 10)
  }

  /** The parts of a component: integer digits, fraction digits, and the offset of its unit. */
  datatype Number = Number(whole: string, fraction: string, end: nat)

  function ReadNumber(s: string): (n: Number)
    ensures n.end <= |s| && AllDigits(n.whole) && AllDigits(n.fraction)
    ensures n.whole != "" || n.fraction != "" ==> n.end > 0
  {
    var i := DigitRun(s);
    if i < |s| && s[i] == '.' then
      var f := DigitRun(s[i + 1..]);
      Number(s[..i], s[i + 1..][..f], i + 1 + f)
    else Number(s[..i], "", i)
  }

  function ValueOf(n: Number, unit: nat): nat
    requires AllDigits(n.whole) && AllDigits(n.fraction)
  {
    NumberOf(n.whole) * unit + FractionNanos(n.fraction, unit)
  }

  /** The nanoseconds of the first component and the number of characters it takes. */
  function Component(s: string): (r: Option<(nat, nat)>)
    ensures r.Some? ==> 0 < r.value.1 <= |s| && r.value.0 <= MAX_NANOS
  {
    var n := ReadNumber(s);
    var unit := ReadUnit(s[n.end..]);
    if (n.whole == "" && n.fraction == "") || unit.None? then None
    else
      var nanos := ValueOf(n, unit.value.0);
      if nanos > MAX_NANOS then None else Some((nanos, n.end + unit.value.1))
  }

  /** Adds up what `parse` reads, component after component, to the end of the text. */
  function Chain(parse: string -> Option<(nat, nat)>, s: string): Option<nat>
    decreases |s|
  {
    if s == "" then Some(0)
    else
      var c := parse(s);
      if c.None? || !(0 < c.value.1 <= |s|) then None
      else
        var rest := Chain(parse, s[c.value.1..]);
        if rest.None? then None else Some(c.value.0 + rest.value)
  }

  /** What is left to add up after trimming and an optional `+`; nothing for a negative duration. */
  function Body(raw: string): Option<string> {
    var s := Trim(raw);
    if s != "" && s[0] == '-' then None else if s != "" && s[0] == '+' then Some(s[1..]) else Some(s)
  }

  function ParseWith(parse: string -> Option<(nat, nat)>, raw: string): (r: Option<nat>)
    ensures r.Some? ==> 1 <= r.value <= MAX_NANOS
  {
    if Body(raw).None? then None
    else
      var total := Chain(parse, Body(raw).value);
      if total.None? || total.value == 0 || total.value > MAX_NANOS then None else total
  }

  // ----- the checked loops of the source

  /** `None` when a 128-bit product overflows. */
  function CheckedMul(a: nat, b: nat): Option<nat> {
    if a * b > U128_MAX then None else Some(a * b)
  }

  function CheckedAdd(a: nat, b: nat): Option<nat> {
    if a + b > U128_MAX then None else Some(a + b)
  }

  lemma {:induction false} NumberGrows(s: string, i: nat)
    requires AllDigits(s) && i <= |s|
    ensures NumberOf(s[..i]) <= NumberOf(s)
  {
    if i < |s| {
      assert s[..|s| - 1][..i] == s[..i];
      NumberGrows(s[..|s| - 1], i);
    } else {
      assert s[..i] == s;
    }
  }

  /** The integer digits: an overflow of 128 bits can only happen beyond the limit. */
  method ReadWhole(s: string) returns (value: Option<nat>, n: nat)
    ensures value.Some? ==> n == DigitRun(s) && value.value == NumberOf(s[..n])
    ensures value.None? ==> NumberOf(s[..DigitRun(s)]) > U128_MAX
  {
    n := 0;
    var v: nat := 0;
    ghost var run := DigitRun(s);
    while n < |s| && IsDigit(s[n])
      invariant n <= run && AllDigits(s[..n]) && v == NumberOf(s[..n]) <= U128_MAX
    {
      assert s[..n + 1][..n] == s[..n] && s[..run][..n + 1] == s[..n + 1];
      assert NumberOf(s[..n + 1]) == v * 10 + Digit(s[n]);
      NumberGrows(s[..run], n + 1);
      var tens := CheckedMul(v, 10);
      if tens.None? { return None, n; }
      var next := CheckedAdd(tens.value, Digit(s[n]));
      if next.None? { return None, n; }
      v := next.value;
      n := n + 1;
    }
    value := Some(v);
  }

  lemma {:induction false} FractionZero(digits: string)
    requires AllDigits(digits)
    ensures FractionNanos(digits, 0) == 0
  {
    if digits != "" {
      FractionZero(digits[1..]);
    }
  }

  /** The fraction loop, which skips the digits below one nanosecond. */
  method AddFraction(nanos: nat, digits: string, unit: nat) returns (r: Option<nat>)
    requires AllDigits(digits)
    ensures r.Some? ==> r.value == nanos + FractionNanos(digits, unit)
    ensures r.None? ==> nanos + FractionNanos(digits, unit) > U128_MAX
  {
    var total: nat, scale: nat := nanos, unit;
    for i := 0 to |digits|
      invariant AllDigits(digits[i..])
      invariant total + FractionNanos(digits[i..], scale) == nanos + FractionNanos(digits, unit)
    {
      assert digits[i..][1..] == digits[i + 1..];
      scale := scale / 10;
      if scale == 0 { continue; }
      var next := CheckedAdd(total, Digit(digits[i]) * scale);
      if next.None? { return None; }
      total := next.value;
    }
    r := Some(total);
  }

  /** The number in units, as nanoseconds within the limit. */
  method Scale(whole: nat, digits: string, unit: nat) returns (r: Option<nat>)
    requires AllDigits(digits)
    ensures var nanos := whole * unit + FractionNanos(digits, unit);
            r == if nanos > MAX_NANOS then None else Some(nanos)
  {
    var product := CheckedMul(whole, unit);
    if product.None? { return None; }
    var nanos := AddFraction(product.value, digits, unit);
    if nanos.None? || nanos.value > MAX_NANOS { return None; }
    r := nanos;
  }

  method ParseDurationComponent(s: string) returns (r: Option<(nat, nat)>)
    ensures r == Component(s)
  {
    ghost var number := ReadNumber(s);
    var whole, offset := ReadWhole(s);
    if whole.None? {
      assert NumberOf(number.whole) > MAX_NANOS;
      TooLarge(number, ReadUnit(s[number.end..]));
      return None;
    }
    var digits := "";
    var intDigits := offset;
    if offset < |s| && s[offset] == '.' {
      offset := offset + 1;
      var f := DigitRun(s[offset..]);
      digits := s[offset..][..f];
      offset := offset + f;
    }
    assert number == Number(s[..intDigits], digits, offset);
    if intDigits == 0 && digits == "" { return None; }
    var unit := ReadUnit(s[offset..]);
    if unit.None? { return None; }
    var nanos := Scale(whole.value, digits, unit.value.0);
    if nanos.None? { return None; }
    r := Some((nanos.value, offset + unit.value.1));
  }

  lemma TooLarge(n: Number, unit: Option<(nat, nat)>)
    requires AllDigits(n.whole) && AllDigits(n.fraction) && NumberOf(n.whole) > MAX_NANOS
    ensures unit.Some? && unit.value.0 >= 1 ==> ValueOf(n, unit.value.0) > MAX_NANOS
  {
    if unit.Some? && unit.value.0 >= 1 {
      var v, u := NumberOf(n.whole), unit.value.0;
      assert v * u >= v;
    }
  }

  /** The final total, when `sofar` has been added and `s` is still to be read. */
  function Ahead(parse: string -> Option<(nat, nat)>, sofar: nat, s: string): (r: Option<nat>)
    ensures sofar == 0 ==> r == Chain(parse, s)
    ensures s == "" ==> r == Some(sofar)
    ensures r.Some? ==> r.value >= sofar
  {
    if Chain(parse, s).None? then None else Some(sofar + Chain(parse, s).value)
  }

  lemma AheadStep(parse: string -> Option<(nat, nat)>, sofar: nat, s: string)
    requires s != ""
    ensures var c := parse(s);
            Ahead(parse, sofar, s) ==
            if c.None? || !(0 < c.value.1 <= |s|) then None else Ahead(parse, sofar + c.value.0, s[c.value.1..])
  {
  }

  /** The component loop, which stops as soon as the running total passes the limit. */
  method AddComponents(whole: string) returns (r: Option<nat>)
    ensures var total := Ahead(Component, 0, whole);
            r == if total.None? || total.value > MAX_NANOS then None else total
  {
    var s := whole;
    var total: nat := 0;
    while s != ""
      invariant total <= MAX_NANOS
      invariant Ahead(Component, 0, whole) == Ahead(Component, total, s)
      decreases |s|
    {
      var c := ParseDurationComponent(s);
      AheadStep(Component, total, s);
      if c.None? { return None; }
      var next := CheckedAdd(total, c.value.0);
      if next.None? || next.value > MAX_NANOS { return None; }
      total := next.value;
      s := s[c.value.1..];
    }
    r := Some(total);
  }

  method ParseUnitDuration(raw: string) returns (r: Option<nat>)
    ensures r == ParseWith(Component, raw)
  {
    var s := Trim(raw);
    if s != "" && s[0] == '+' {
      s := s[1..];
    } else if s != "" && s[0] == '-' {
      return None;
    }
    r := AddComponents(s);
    if r == Some(0) { r := None; }
  }

  // ----- rounding

  /** The fraction adds strictly less than one unit. */
  lemma TenthsFit(d: nat, tenth: nat, rest: nat, unit: nat)
    requires d <= 9 && rest < tenth && 10 * tenth <= unit
    ensures d * tenth + rest < unit
  {
    assert (9 - d) * tenth >= 0;
  }

  lemma {:induction false} FractionBelowUnit(digits: string, unit: nat)
    requires AllDigits(digits) && unit > 0
    ensures FractionNanos(digits, unit) < unit
  {
    if digits != "" {
      if unit / 10 == 0 {
        FractionZero(digits[1..]);
      } else {
        FractionBelowUnit(digits[1..], unit / 10);
        TenthsFit(Digit(digits[0]), unit / 10, FractionNanos(digits[1..], unit / 10), unit);
      }
    }
  }

  /** The exact value of a decimal fraction of `unit`. */
  function ExactFraction(digits: string, unit: real): real
    requires AllDigits(digits)
  {
    if digits == "" then 0.0 else Digit(digits[0]) as real * (unit / 10.0) + ExactFraction(digits[1..], unit / 10.0)
  }

  lemma DigitTimes(d: real, t: real) returns (product: real)
    requires 0.0 <= d <= 9.0 && t > 0.0
    ensures product == d * t && 0.0 <= product <= 9.0 * t
  {
    product := d * t;
    assert (9.0 - d) * t >= 0.0;
  }

  lemma TenTenths(product: real, tenth: real, rest: real)
    requires 0.0 <= product <= 9.0 * tenth && 0.0 <= rest < tenth
    ensures 0.0 <= product + rest < 10.0 * tenth
  {
  }

  lemma {:induction false} ExactBelowUnit(digits: string, unit: real)
    requires AllDigits(digits) && unit > 0.0
    ensures 0.0 <= ExactFraction(digits, unit) < unit
  {
    if digits != "" {
      var tenth := unit / 10.0;
      ExactBelowUnit(digits[1..], tenth);
      var product := DigitTimes(Digit(digits[0]) as real, tenth);
      TenTenths(product, tenth, ExactFraction(digits[1..], tenth));
    }
  }

  /** How far rounding down falls below the exact fraction. */
  function Shortfall(digits: string, unit: nat): real
    requires AllDigits(digits)
  {
    ExactFraction(digits, unit as real) - FractionNanos(digits, unit) as real
  }

  /** A unit without its trailing zeros. */
  function Core(unit: nat): nat {
    if unit > 0 && unit % 10 == 0 then Core(unit / 10) else unit
  }

  lemma TenthIsExact(digits: string, unit: nat)
    requires AllDigits(digits) && digits != "" && unit % 10 == 0
    ensures Shortfall(digits, unit) == Shortfall(digits[1..], unit / 10)
  {
    assert unit as real / 10.0 == (unit / 10) as real;
    var d, t := Digit(digits[0]), unit / 10;
    assert d as real * t as real == (d * t) as real;
  }

  lemma SmallUnitShortfall(digits: string, unit: nat)
    requires AllDigits(digits) && 0 < unit < 10
    ensures 0.0 <= Shortfall(digits, unit) < unit as real
  {
    ExactBelowUnit(digits, unit as real);
    if digits != "" {
      assert unit / 10 == 0;
      FractionZero(digits[1..]);
    }
  }

  lemma HourCoreShortfall(digits: string)
    requires AllDigits(digits)
    ensures 0.0 <= Shortfall(digits, 36) < 9.0
  {
    if digits != "" {
      var rest := digits[1..];
      ExactBelowUnit(rest, 3.6);
      if rest != "" {
        FractionZero(rest[1..]);
      }
      assert FractionNanos(rest, 3) == 0;
    }
  }

  /** The shortfall depends on the unit without its trailing zeros: below 1, 6 or 9 nanoseconds. */
  lemma {:induction false} ShortfallBound(digits: string, unit: nat)
    requires AllDigits(digits) && Core(unit) in {1, 6, 36}
    ensures 0.0 <= Shortfall(digits, unit) < if Core(unit) == 36 then 9.0 else Core(unit) as real
  {
    if digits == "" {
    } else if unit % 10 == 0 {
      TenthIsExact(digits, unit);
      ShortfallBound(digits[1..], unit / 10);
    } else if unit == 36 {
      HourCoreShortfall(digits);
    } else {
      SmallUnitShortfall(digits, unit);
    }
  }

  lemma CoreValues()
    ensures Core(1) == 1 && Core(1_000) == 1 && Core(1_000_000) == 1 && Core(1_000_000_000) == 1
    ensures Core(60_000_000_000) == 6
    ensures Core(3_600_000_000_000) == 36
  {
  }

  lemma UnitCores(s: string)
    requires ReadUnit(s).Some?
    ensures Core(ReadUnit(s).value.0) in {1, 6, 36}
  {
    CoreValues();
  }

  /** The exact value of a number of units. */
  function ExactValue(n: Number, unit: nat): real
    requires AllDigits(n.whole) && AllDigits(n.fraction)
  {
    (NumberOf(n.whole) * unit) as real + ExactFraction(n.fraction, unit as real)
  }

  lemma ValueRounding(n: Number, unit: nat)
    requires AllDigits(n.whole) && AllDigits(n.fraction) && unit > 0 && Core(unit) in {1, 6, 36}
    ensures 0.0 <= ExactValue(n, unit) - ValueOf(n, unit) as real < 9.0
    ensures NumberOf(n.whole) * unit <= ValueOf(n, unit) < NumberOf(n.whole) * unit + unit
  {
    ShortfallBound(n.fraction, unit);
    FractionBelowUnit(n.fraction, unit);
  }

  /**
   A parsed component is its exact decimal value, rounded down by less than 9 nanoseconds, and
   its fraction adds less than one unit.
   */
  lemma ComponentRounding(s: string)
    requires Component(s).Some?
    ensures var n := ReadNumber(s);
            ReadUnit(s[n.end..]).Some? &&
            var unit, nanos := ReadUnit(s[n.end..]).value.0, Component(s).value.0;
            && 0.0 <= ExactValue(n, unit) - nanos as real < 9.0
            && NumberOf(n.whole) * unit <= nanos < NumberOf(n.whole) * unit + unit
  {
    var n := ReadNumber(s);
    UnitCores(s[n.end..]);
    ValueRounding(n, ReadUnit(s[n.end..]).value.0);
  }

  // ----- additivity

  /** A component cannot absorb what follows it, unless that begins with an `s`. */
  predicate Continues(t: string) {
    t == "" || IsDigit(t[0]) || t[0] == '.'
  }

  lemma {:induction false} DigitRunLocal(s: string, t: string)
    requires DigitRun(s) < |s|
    ensures DigitRun(s + t) == DigitRun(s)
  {
    if IsDigit(s[0]) {
      assert (s + t)[1..] == s[1..] + t;
      DigitRunLocal(s[1..], t);
    }
  }

  lemma UnitLocal(s: string, t: string)
    requires ReadUnit(s).Some? && Continues(t)
    ensures ReadUnit(s + t) == ReadUnit(s)
  {
    assert s + t != "" && (s + t)[0] == s[0];
    if |s| > 1 {
      assert (s + t)[1] == s[1];
    }
  }

  lemma NumberLocal(s: string, t: string)
    requires ReadNumber(s).end < |s|
    ensures ReadNumber(s + t) == ReadNumber(s)
  {
    var i := DigitRun(s);
    DigitRunLocal(s, t);
    assert (s + t)[..i] == s[..i];
    if s[i] == '.' {
      assert (s + t)[i + 1..] == s[i + 1..] + t;
      DigitRunLocal(s[i + 1..], t);
      assert (s[i + 1..] + t)[..DigitRun(s[i + 1..])] == s[i + 1..][..DigitRun(s[i + 1..])];
    }
  }

  /** The first component is read the same whatever further components follow. */
  lemma ComponentLocal(s: string, t: string)
    requires Component(s).Some? && Continues(t)
    ensures Component(s + t) == Component(s)
  {
    var n := ReadNumber(s);
    NumberLocal(s, t);
    assert (s + t)[n.end..] == s[n.end..] + t;
    UnitLocal(s[n.end..], t);
  }

  lemma ComponentContinues(s: string)
    requires Component(s).Some?
    ensures Continues(s)
  {
  }

  predicate LocalAt(parse: string -> Option<(nat, nat)>, s: string, t: string) {
    parse(s).Some? ==> parse(s + t) == parse(s)
  }

  /** What `parse` reads is never changed by appending `t`. */
  ghost predicate Local(parse: string -> Option<(nat, nat)>, t: string) {
    forall s :: LocalAt(parse, s, t)
  }

  lemma {:induction false} ChainConcat(parse: string -> Option<(nat, nat)>, a: string, b: string)
    requires Local(parse, b) && Chain(parse, a).Some? && Chain(parse, b).Some?
    ensures Chain(parse, a + b) == Some(Chain(parse, a).value + Chain(parse, b).value)
    decreases |a|
  {
    if a == "" {
      assert a + b == b;
    } else {
      var c := parse(a).value;
      assert LocalAt(parse, a, b);
      assert (a + b)[c.1..] == a[c.1..] + b;
      ChainConcat(parse, a[c.1..], b);
    }
  }

  lemma ComponentIsLocal(t: string)
    requires Continues(t)
    ensures Local(Component, t)
  {
    forall s ensures LocalAt(Component, s, t) {
      if Component(s).Some? {
        ComponentLocal(s, t);
      }
    }
  }

  lemma TrimConcat(a: string, b: string)
    requires a != "" && !IsWhitespace(a[|a| - 1]) && b != "" && !IsWhitespace(b[0])
    ensures Trim(a + b) == Trim(a) + Trim(b) && Trim(a) != ""
  {
    TrimStartAppend(a, b);
    TrimStartIsSuffix(a);
    TrimEndAppend(TrimStart(a), b);
  }

  lemma {:induction false} TrimStartAppend(a: string, b: string)
    requires a != "" && !IsWhitespace(a[|a| - 1])
    ensures TrimStart(a) != "" && TrimStart(a + b) == TrimStart(a) + b
  {
    if IsWhitespace(a[0]) {
      assert (a + b)[1..] == a[1..] + b;
      TrimStartAppend(a[1..], b);
    }
  }

  predicate Unsigned(s: string) {
    Body(s) == Some(Trim(s))
  }

  lemma AdditiveWith(parse: string -> Option<(nat, nat)>, a: string, b: string)
    requires ParseWith(parse, a).Some? && ParseWith(parse, b).Some? && Unsigned(a) && Unsigned(b)
    requires a != "" && b != "" && !IsWhitespace(a[|a| - 1]) && !IsWhitespace(b[0])
    requires Local(parse, Trim(b))
    ensures var total := ParseWith(parse, a).value + ParseWith(parse, b).value;
            ParseWith(parse, a + b) == if total <= MAX_NANOS then Some(total) else None
  {
    TrimConcat(a, b);
    ChainConcat(parse, Trim(a), Trim(b));
  }

  lemma ChainNeedsComponent(parse: string -> Option<(nat, nat)>, raw: string)
    requires ParseWith(parse, raw).Some? && Unsigned(raw)
    ensures raw != "" && parse(Trim(raw)).Some?
  {
  }

  /**
   Parsing is additive: two accepted unsigned durations that touch without white space parse
   together to their sum, or are refused when the sum passes the limit.
   */
  lemma ParseIsAdditive(a: string, b: string)
    requires ParseWith(Component, a).Some? && ParseWith(Component, b).Some? && Unsigned(a) && Unsigned(b)
    requires a != "" && b != "" && !IsWhitespace(a[|a| - 1]) && !IsWhitespace(b[0])
    ensures var total := ParseWith(Component, a).value + ParseWith(Component, b).value;
            ParseWith(Component, a + b) == if total <= MAX_NANOS then Some(total) else None
  {
    ChainNeedsComponent(Component, b);
    ComponentContinues(Trim(b));
    ComponentIsLocal(Trim(b));
    AdditiveWith(Component, a, b);
  }

  // ----- written durations

  lemma {:induction false} DigitRunStops(d: string, u: string)
    requires AllDigits(d) && (u != "" ==> !IsDigit(u[0]))
    ensures DigitRun(d + u) == |d|
  {
    if d == "" {
      assert d + u == u;
    } else {
      assert (d + u)[1..] == d[1..] + u;
      DigitRunStops(d[1..], u);
    }
  }

  lemma WholeNumberReads(d: string, u: string)
    requires d != "" && AllDigits(d) && u != "" && !IsDigit(u[0]) && u[0] != '.'
    ensures ReadNumber(d + u) == Number(d, "", |d|) && (d + u)[|d|..] == u
  {
    DigitRunStops(d, u);
    assert (d + u)[..|d|] == d;
  }

  lemma WholeComponent(s: string, n: Number, u: string, unit: nat)
    requires n.whole != "" && n.fraction == "" && AllDigits(n.whole) && n.end <= |s|
    requires ReadNumber(s) == n && s[n.end..] == u && ReadUnit(u) == Some((unit, |u|))
    ensures var nanos := NumberOf(n.whole) * unit;
            Component(s) == if nanos > MAX_NANOS then None else Some((nanos, |s|))
  {
  }

  lemma OneComponent(parse: string -> Option<(nat, nat)>, s: string)
    requires s != "" && IsTrimmed(s) && s[0] != '-' && s[0] != '+'
    requires parse(s).Some? ==> parse(s).value.1 == |s|
    ensures ParseWith(parse, s) ==
            if parse(s).Some? && 1 <= parse(s).value.0 <= MAX_NANOS then Some(parse(s).value.0) else None
  {
    TrimmedStays(s);
    assert Body(s) == Some(s);
    if parse(s).Some? {
      assert s[|s|..] == "" && Chain(parse, "") == Some(0);
      assert Chain(parse, s) == Some(parse(s).value.0);
    }
  }

  lemma WrittenIsTrimmed(d: string, u: string, unit: nat)
    requires d != "" && AllDigits(d) && ReadUnit(u) == Some((unit, |u|))
    ensures u != "" && !IsDigit(u[0]) && u[0] != '.'
    ensures IsTrimmed(d + u) && IsDigit((d + u)[0])
  {
  }

  /** A whole number followed by a unit is that many units, accepted exactly within the limits. */
  lemma WrittenDurationReads(n: nat, u: string, unit: nat)
    requires ReadUnit(u) == Some((unit, |u|))
    ensures ParseWith(Component, Decimal(n) + u) == if 1 <= n * unit <= MAX_NANOS then Some(n * unit) else None
  {
    DecimalReads(n);
    WrittenReads(Decimal(n), u, unit);
  }

  lemma WrittenReads(d: string, u: string, unit: nat)
    requires d != "" && AllDigits(d) && ReadUnit(u) == Some((unit, |u|))
    ensures var nanos := NumberOf(d) * unit;
            ParseWith(Component, d + u) == if 1 <= nanos <= MAX_NANOS then Some(nanos) else None
  {
    WrittenIsTrimmed(d, u, unit);
    WholeNumberReads(d, u);
    WholeComponent(d + u, Number(d, "", |d|), u, unit);
    OneComponent(Component, d + u);
  }

  lemma FractionParts(d: string, f: string, u: string, s: string)
    requires s == d + ['.'] + (f + u)
    ensures s == d + (['.'] + (f + u)) && |d| < |s| && s[|d|] == '.' && s[..|d|] == d
    ensures s[|d| + 1..] == f + u && (f + u)[..|f|] == f && s[|d| + 1 + |f|..] == u
  {
  }

  lemma FractionNumberReads(d: string, f: string, u: string, s: string)
    requires AllDigits(d) && AllDigits(f) && u != "" && !IsDigit(u[0]) && s == d + ['.'] + (f + u)
    ensures ReadNumber(s) == Number(d, f, |d| + 1 + |f|) && |s| == |d| + 1 + |f| + |u| && s[|d| + 1 + |f|..] == u
  {
    FractionParts(d, f, u, s);
    DigitRunStops(d, ['.'] + (f + u));
    DigitRunStops(f, u);
  }

  lemma FractionComponent(s: string, n: Number, u: string, unit: nat)
    requires n.whole != "" || n.fraction != ""
    requires AllDigits(n.whole) && AllDigits(n.fraction) && n.end <= |s|
    requires ReadNumber(s) == n && s[n.end..] == u && ReadUnit(u) == Some((unit, |u|))
    ensures Component(s) == if ValueOf(n, unit) > MAX_NANOS then None else Some((ValueOf(n, unit), |s|))
  {
  }

  lemma FractionIsTrimmed(d: string, f: string, u: string, unit: nat, s: string)
    requires AllDigits(d) && ReadUnit(u) == Some((unit, |u|)) && s == d + ['.'] + (f + u)
    ensures u != "" && !IsDigit(u[0]) && s != "" && IsTrimmed(s) && s[0] != '-' && s[0] != '+'
  {
    assert s[|s| - 1] == u[|u| - 1];
  }

  lemma ParseOne(parse: string -> Option<(nat, nat)>, s: string, nanos: nat)
    requires Unpadded(s)
    requires parse(s) == if nanos > MAX_NANOS then None else Some((nanos, |s|))
    ensures ParseWith(parse, s) == if 1 <= nanos <= MAX_NANOS then Some(nanos) else None
  {
    OneComponent(parse, s);
  }

  /** A text that the parser takes as it is. */
  predicate Unpadded(s: string) {
    s != "" && IsTrimmed(s) && s[0] != '-' && s[0] != '+'
  }

  /** `s` is one number, as read by `ReadNumber`, followed by one unit. */
  ghost predicate IsOne(s: string, n: Number, unit: nat) {
    && AllDigits(n.whole) && AllDigits(n.fraction) && (n.whole != "" || n.fraction != "") && n.end <= |s|
    && ReadNumber(s) == n && ReadUnit(s[n.end..]) == Some((unit, |s| - n.end))
  }

  lemma OneReads(s: string, n: Number, unit: nat, nanos: nat)
    requires Unpadded(s) && IsOne(s, n, unit)
    requires nanos == NumberOf(n.whole) * unit + FractionNanos(n.fraction, unit)
    ensures ParseWith(Component, s) == if 1 <= nanos <= MAX_NANOS then Some(nanos) else None
  {
    FractionComponent(s, n, s[n.end..], unit);
    ParseOne(Component, s, nanos);
  }

  lemma FractionIsOne(d: string, f: string, u: string, unit: nat, s: string)
    requires AllDigits(d) && AllDigits(f) && (d != "" || f != "") && ReadUnit(u) == Some((unit, |u|))
    requires s == d + ['.'] + (f + u)
    ensures Unpadded(s) && IsOne(s, Number(d, f, |d| + 1 + |f|), unit)
  {
    FractionIsTrimmed(d, f, u, unit, s);
    FractionNumberReads(d, f, u, s);
  }

  /**
   A decimal number followed by a unit, with digits on either side of the point, is its whole
   units and the sum of its fraction's digits, accepted exactly within the limits.
   */
  lemma WrittenFractionReads(d: string, f: string, u: string, unit: nat, s: string, nanos: nat)
    requires AllDigits(d) && AllDigits(f) && (d != "" || f != "") && ReadUnit(u) == Some((unit, |u|))
    requires s == d + ['.'] + (f + u) && nanos == NumberOf(d) * unit + FractionNanos(f, unit)
    ensures ParseWith(Component, s) == if 1 <= nanos <= MAX_NANOS then Some(nanos) else None
  {
    FractionIsOne(d, f, u, unit, s);
    OneReads(s, Number(d, f, |d| + 1 + |f|), unit, nanos);
  }

  /** A leading `+` is ignored; a leading `-` is refused. */
  lemma SignReads(parse: string -> Option<(nat, nat)>, s: string)
    requires s != "" && IsTrimmed(s) && s[0] != '+' && s[0] != '-'
    ensures ParseWith(parse, "+" + s) == ParseWith(parse, s)
    ensures ParseWith(parse, "-" + s) == None
  {
    TrimmedStays(s);
    TrimmedStays("+" + s);
    TrimmedStays("-" + s);
    assert ("+" + s)[1..] == s;
  }

  /** The units, each under every spelling. */
  lemma UnitsRead()
    ensures ReadUnit("ns") == Some((1, 2))
    ensures ReadUnit("us") == ReadUnit("\U{B5}s") == ReadUnit("\U{3BC}s") == Some((1_000, 2))
    ensures ReadUnit("ms") == Some((1_000 * 1_000, 2))
    ensures ReadUnit("s") == Some((1_000 * 1_000_000, 1))
    ensures ReadUnit("m") == Some((60 * 1_000_000_000, 1))
    ensures ReadUnit("h") == Some((60 * 60_000_000_000, 1))
  {
  }
}
