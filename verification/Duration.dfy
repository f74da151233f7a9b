/** Compact durations: `1h20m30s` or a bare number of seconds to a 64-bit count, and back to text. */
module Duration {
  import opened Common
  import opened Text

  const LIMIT := 0x1_0000_0000_0000_0000

  datatype Error = Empty | Negative | Invalid | TooLarge

  /** The Unicode White_Space characters, which `trim` removes. */
  predicate IsWhite(c: char) {
    var n := c as int;
    || 0x9 <= n <= 0xD || n == 0x20 || n == 0x85 || n == 0xA0 || n == 0x1680 || 0x2000 <= n <= 0x200A
    || n == 0x2028 || n == 0x2029 || n == 0x202F || n == 0x205F || n == 0x3000
  }

  function Trim(s: string): (t: string)
    ensures t == "" || (!IsWhite(t[0]) && !IsWhite(t[|t| - 1]))
    decreases |s|
  {
    if s != "" && IsWhite(s[0]) then Trim(s[1..])
    else if s != "" && IsWhite(s[|s| - 1]) then Trim(s[..|s| - 1])
    else s
  }

  /** What is trimmed off the ends is white space and nothing else. */
  lemma {:induction false} TrimMeans(s: string) returns (left: string, right: string)
    ensures s == left + Trim(s) + right
    ensures (forall c | c in left :: IsWhite(c)) && forall c | c in right :: IsWhite(c)
    decreases |s|
  {
    if s != "" && IsWhite(s[0]) {
      left, right := TrimMeans(s[1..]);
      left := [s[0]] + left;
    } else if s != "" && IsWhite(s[|s| - 1]) {
      left, right := TrimMeans(s[..|s| - 1]);
      right := right + [s[|s| - 1]];
    } else {
      left, right := "", "";
    }
  }

  /****** what a duration is ******/

  /** Digits and a unit letter. */
  datatype Component = Component(digits: string, unit: char)

  predicate IsUnit(c: char) { c == 'h' || c == 'm' || c == 's' }

  function Order(unit: char): nat { if unit == 'h' then 2 else if unit == 'm' then 1 else 0 }

  function Multiplier(unit: char): nat { if unit == 'h' then 3600 else if unit == 'm' then 60 else 1 }

  predicate WellFormed(c: Component) { c.digits != "" && AllDigits(c.digits) && IsUnit(c.unit) }

  function Amount(c: Component): nat
    requires WellFormed(c)
  {
    Value(c.digits) * Multiplier(c.unit)
  }

  function Render(cs: seq<Component>): string {
    if cs == [] then "" else cs[0].digits + [cs[0].unit] + Render(cs[1..])
  }

  predicate AllWellFormed(cs: seq<Component>) { forall i | 0 <= i < |cs| :: WellFormed(cs[i]) }

  predicate Ordered(cs: seq<Component>) {
    forall i, j | 0 <= i < j < |cs| :: Order(cs[i].unit) > Order(cs[j].unit)
  }

  /** The text is these components, the largest unit first and none twice. */
  predicate IsDuration(s: string, cs: seq<Component>) {
    AllWellFormed(cs) && Ordered(cs) && s == Render(cs)
  }

  function Total(cs: seq<Component>): nat
    requires AllWellFormed(cs)
  {
    if cs == [] then 0 else Amount(cs[0]) + Total(cs[1..])
  }

  function Fitting(v: nat): Result<nat, Error> { if v < LIMIT then Ok(v) else Err(TooLarge) }

  /** The result trimmed text should have. */
  ghost predicate Reads(s: string, r: Result<nat, Error>) {
    if s == "" then r == Err(Empty)
    else if s[0] == '-' then r == Err(Negative)
    else if AllDigits(s) then r == Fitting(Value(s))
    else
      && (forall cs | IsDuration(s, cs) :: r == Fitting(Total(cs)))
      && (r.Ok? ==> exists cs :: IsDuration(s, cs))
  }

  /****** the scan ******/

  function LeadingDigits(s: string): (n: nat)
    ensures n <= |s| && AllDigits(s[..n]) && (n < |s| ==> !IsDigit(s[n]))
  {
    if s == "" || !IsDigit(s[0]) then 0 else 1 + LeadingDigits(s[1..])
  }

  /** What is left of the text is these components, all of units below the last one scanned. */
  predicate Rest(s: string, below: nat, cs: seq<Component>) {
    IsDuration(s, cs) && (cs != [] ==> Order(cs[0].unit) < below)
  }

  lemma LeadingDigitsOf(digits: string, rest: string)
    requires AllDigits(digits) && (rest != "" ==> !IsDigit(rest[0]))
    ensures LeadingDigits(digits + rest) == |digits|
    decreases |digits|
  {
    if digits == "" {
      assert digits + rest == rest;
    } else {
      assert (digits + rest)[1..] == digits[1..] + rest;
      LeadingDigitsOf(digits[1..], rest);
    }
  }

  lemma OrderedRest(cs: seq<Component>)
    requires AllWellFormed(cs) && Ordered(cs) && cs != []
    ensures AllWellFormed(cs[1..]) && Ordered(cs[1..])
    ensures |cs| > 1 ==> Order(cs[1].unit) < Order(cs[0].unit)
  {
    assert forall i | 0 <= i < |cs[1..]| :: cs[1..][i] == cs[i + 1];
  }

  lemma CutDigits(s: string, digits: string, unit: char, rest: string)
    requires s == digits + [unit] + rest && AllDigits(digits) && !IsDigit(unit)
    ensures LeadingDigits(s) == |digits| < |s|
    ensures s[..|digits|] == digits && s[|digits|] == unit && s[|digits| + 1..] == rest
  {
    assert s == digits + ([unit] + rest);
    LeadingDigitsOf(digits, [unit] + rest);
  }

  /** Text that is a duration can be cut in one way: digits up to the first other character, a unit, the rest. */
  lemma CutFirst(s: string, below: nat, cs: seq<Component>)
    requires Rest(s, below, cs) && s != ""
    ensures cs != []
    ensures var n := LeadingDigits(s);
            && 0 < n < |s| && cs[0] == Component(s[..n], s[n]) && WellFormed(cs[0]) && Order(s[n]) < below
            && Rest(s[n + 1..], Order(s[n]), cs[1..])
  {
    assert cs != [] && WellFormed(cs[0]);
    CutDigits(s, cs[0].digits, cs[0].unit, Render(cs[1..]));
    OrderedRest(cs);
  }

  lemma {:induction false} TotalOfTwo(a: seq<Component>, b: seq<Component>)
    requires AllWellFormed(a) && AllWellFormed(b)
    ensures AllWellFormed(a + b) && Total(a + b) == Total(a) + Total(b)
    decreases |a|
  {
    if a == [] {
      assert a + b == b;
    } else {
      assert (a + b)[1..] == a[1..] + b;
      TotalOfTwo(a[1..], b);
    }
  }

  lemma {:induction false} RenderOfTwo(a: seq<Component>, b: seq<Component>)
    ensures Render(a + b) == Render(a) + Render(b)
    decreases |a|
  {
    if a == [] {
      assert a + b == b;
    } else {
      assert (a + b)[1..] == a[1..] + b;
      RenderOfTwo(a[1..], b);
    }
  }

  /** One reading of the text, if `done` is what has been scanned. */
  predicate Continues(cs: seq<Component>, done: seq<Component>, left: string, below: nat) {
    |done| <= |cs| && cs[..|done|] == done && Rest(left, below, cs[|done|..])
  }

  /** Where the scan stands: what is done, what is left, and that every reading of the text agrees. */
  ghost predicate Scanned(s: string, offset: nat, previous: nat, total: nat, done: seq<Component>)
    requires offset <= |s|
  {
    && IsDuration(s[..offset], done) && total == Total(done)
    && previous == (if done == [] then 3 else Order(done[|done| - 1].unit))
    && forall cs | IsDuration(s, cs) :: Continues(cs, done, s[offset..], previous)
  }

  lemma ScanStart(s: string)
    ensures Scanned(s, 0, 3, 0, [])
  {
    assert s[0..] == s;
    forall cs | IsDuration(s, cs) ensures Continues(cs, [], s, 3) { assert cs[0..] == cs; }
  }

  /** The next component is the same in every reading. */
  lemma NextComponent(s: string, offset: nat, previous: nat, total: nat, done: seq<Component>, cs: seq<Component>)
    requires offset < |s| && Scanned(s, offset, previous, total, done) && IsDuration(s, cs)
    ensures var left := s[offset..];
            var n := LeadingDigits(left);
            && 0 < n < |left|
            && var c := Component(left[..n], left[n]);
            && WellFormed(c) && Order(c.unit) < previous
            && Continues(cs, done + [c], left[n + 1..], Order(c.unit))
            && Total(cs) >= total + Amount(c)
  {
    var tail := cs[|done|..];
    assert Continues(cs, done, s[offset..], previous);
    CutFirst(s[offset..], previous, tail);
    SplitAt(cs, |done|);
    TotalOfTwo(done, tail);
  }

  lemma SplitAt<T>(s: seq<T>, n: nat)
    requires n < |s|
    ensures s == s[..n] + s[n..] && s[n..][0] == s[n]
    ensures s[..n + 1] == s[..n] + [s[n]] && s[n + 1..] == s[n..][1..]
  {
  }

  lemma ScanStep(s: string, offset: nat, previous: nat, total: nat, done: seq<Component>, n: nat)
    requires offset < |s| && Scanned(s, offset, previous, total, done)
    requires n == LeadingDigits(s[offset..]) && 0 < n && offset + n < |s|
    requires IsUnit(s[offset + n]) && Order(s[offset + n]) < previous
    ensures var c := Component(s[offset..offset + n], s[offset + n]);
            WellFormed(c) && Scanned(s, offset + n + 1, Order(c.unit), total + Amount(c), done + [c])
  {
    var left := s[offset..];
    var c := Component(left[..n], left[n]);
    assert left[..n] == s[offset..offset + n] && left[n + 1..] == s[offset + n + 1..];
    RenderOfTwo(done, [c]);
    TotalOfTwo(done, [c]);
    assert [c][1..] == [];
    assert s[..offset + n + 1] == s[..offset] + (c.digits + [c.unit]);
    OrderedGrows(done, c);
    forall cs | IsDuration(s, cs) ensures Continues(cs, done + [c], s[offset + n + 1..], Order(c.unit)) {
      NextComponent(s, offset, previous, total, done, cs);
    }
  }

  lemma OrderedGrows(done: seq<Component>, c: Component)
    requires Ordered(done) && (done != [] ==> Order(c.unit) < Order(done[|done| - 1].unit))
    ensures Ordered(done + [c])
  {
  }

  method ParseDuration(input: string) returns (r: Result<nat, Error>)
    ensures Reads(Trim(input), r)
  {
    var s := Trim(input);
    if s == "" {
      return Err(Empty);
    }
    if s[0] == '-' {
      return Err(Negative);
    }
    if AllDigits(s) {
      return Fitting(Value(s));
    }
    r := Components(s);
  }

  /** With nothing left, what was scanned is the only reading. */
  lemma ScanEnd(s: string, previous: nat, total: nat, done: seq<Component>)
    requires Scanned(s, |s|, previous, total, done)
    ensures IsDuration(s, done)
    ensures forall cs | IsDuration(s, cs) :: Total(cs) == total
  {
    assert s[..|s|] == s;
    forall cs | IsDuration(s, cs) ensures cs == done {
      assert Continues(cs, done, s[|s|..], previous);
      assert cs[|done|..] == [];
      assert cs == cs[..|done|] + cs[|done|..];
    }
  }

  /** The loop over a text's components. */
  method Components(s: string) returns (r: Result<nat, Error>)
    ensures forall cs | IsDuration(s, cs) :: r == Fitting(Total(cs))
    ensures r.Ok? ==> exists cs :: IsDuration(s, cs)
  {
    var total: nat, previous: nat, offset: nat := 0, 3, 0;
    ghost var done: seq<Component> := [];
    ScanStart(s);
    while offset < |s|
      invariant offset <= |s| && total < LIMIT && Scanned(s, offset, previous, total, done)
    {
      var digitsEnd := offset + LeadingDigits(s[offset..]);
      NextOfAll(s, offset, previous, total, done, digitsEnd);
      if digitsEnd == offset || digitsEnd == |s| {
        return Err(Invalid);
      }
      assert s[offset..][..digitsEnd - offset] == s[offset..digitsEnd];
      var value := Value(s[offset..digitsEnd]);
      var unit := s[digitsEnd];
      if value >= LIMIT {
        return Err(TooLarge);
      }
      if !IsUnit(unit) || Order(unit) >= previous {
        return Err(Invalid);
      }
      if value * Multiplier(unit) >= LIMIT || total + value * Multiplier(unit) >= LIMIT {
        return Err(TooLarge);
      }
      ScanStep(s, offset, previous, total, done, digitsEnd - offset);
      done := done + [Component(s[offset..digitsEnd], unit)];
      total := total + value * Multiplier(unit);
      previous := Order(unit);
      offset := digitsEnd + 1;
    }
    ScanEnd(s, previous, total, done);
    r := Ok(total);
  }

  lemma NextOfAll(s: string, offset: nat, previous: nat, total: nat, done: seq<Component>, digitsEnd: nat)
    requires offset < |s| && Scanned(s, offset, previous, total, done)
    requires digitsEnd == offset + LeadingDigits(s[offset..])
    ensures digitsEnd <= |s| && AllDigits(s[offset..digitsEnd])
    ensures forall cs | IsDuration(s, cs) ::
              && offset < digitsEnd < |s| && IsUnit(s[digitsEnd]) && Order(s[digitsEnd]) < previous
              && Total(cs) >= total + Value(s[offset..digitsEnd]) * Multiplier(s[digitsEnd])
              && Total(cs) >= Value(s[offset..digitsEnd])
  {
    var left, n := s[offset..], digitsEnd - offset;
    assert left[..n] == s[offset..digitsEnd];
    forall cs | IsDuration(s, cs)
      ensures && offset < digitsEnd < |s| && IsUnit(s[digitsEnd]) && Order(s[digitsEnd]) < previous
              && Total(cs) >= total + Value(s[offset..digitsEnd]) * Multiplier(s[digitsEnd])
              && Total(cs) >= Value(s[offset..digitsEnd])
    {
      NextComponent(s, offset, previous, total, done, cs);
      Scaled(Value(left[..n]), Multiplier(left[n]));
    }
  }

  lemma Scaled(v: nat, m: nat)
    requires m >= 1
    ensures v * m >= v
  {
  }

  /****** what the contract means ******/

  /** Text has one reading as components. */
  lemma {:induction false} ReadingIsUnique(s: string, a: seq<Component>, b: seq<Component>)
    requires IsDuration(s, a) && IsDuration(s, b)
    ensures a == b
    decreases |s|
  {
    if s == "" {
      assert a != [] ==> |Render(a)| > 0;
      assert b != [] ==> |Render(b)| > 0;
    } else {
      CutFirst(s, 3, a);
      CutFirst(s, 3, b);
      ReadingIsUnique(s[LeadingDigits(s) + 1..], a[1..], b[1..]);
      assert a == [a[0]] + a[1..] && b == [b[0]] + b[1..];
    }
  }

  /** Text that is not a bare number is accepted exactly when it is components whose sum fits in 64 bits. */
  lemma AcceptedIffOrderedAndFits(s: string, r: Result<nat, Error>)
    requires Reads(s, r) && s != "" && !AllDigits(s)
    ensures r.Ok? <==> exists cs :: IsDuration(s, cs) && Total(cs) < LIMIT
    ensures r.Ok? ==> exists cs :: IsDuration(s, cs) && Total(cs) == r.value
  {
    forall cs | IsDuration(s, cs) ensures IsDigit(s[0]) { CutFirst(s, 3, cs); }
    if r.Ok? {
      var cs :| IsDuration(s, cs);
      assert r == Fitting(Total(cs));
    }
  }

  /****** printing ******/

  function FormatDuration(secs: nat): string {
    var hours, minutes, seconds := secs / 3600, secs % 3600 / 60, secs % 60;
    if hours > 0 then Dec(hours) + "h " + Dec(minutes) + "m " + Dec(seconds) + "s"
    else if minutes > 0 then Dec(minutes) + "m " + Dec(seconds) + "s"
    else Dec(seconds) + "s"
  }

  function WithoutSpaces(s: string): string {
    if s == "" then "" else (if s[0] == ' ' then "" else [s[0]]) + WithoutSpaces(s[1..])
  }

  /** What is printed, as components. */
  function Printed(secs: nat): seq<Component> {
    var h, m, s := Component(Dec(secs / 3600), 'h'), Component(Dec(secs % 3600 / 60), 'm'), Component(Dec(secs % 60), 's');
    if secs / 3600 > 0 then [h, m, s] else if secs % 3600 / 60 > 0 then [m, s] else [s]
  }

  lemma {:induction false} WithoutSpacesOfTwo(a: string, b: string)
    ensures WithoutSpaces(a + b) == WithoutSpaces(a) + WithoutSpaces(b)
    decreases |a|
  {
    if a == "" {
      assert a + b == b;
    } else {
      assert (a + b)[1..] == a[1..] + b;
      WithoutSpacesOfTwo(a[1..], b);
    }
  }

  lemma {:induction false} DigitsHaveNoSpaces(s: string)
    requires AllDigits(s)
    ensures WithoutSpaces(s) == s
    decreases |s|
  {
    if s != "" {
      DigitsHaveNoSpaces(s[1..]);
      assert s == [s[0]] + s[1..];
    }
  }

  /** A component and what follows it, with a space or not. */
  lemma WithoutSpacesOfComponent(n: nat, tail: string, rest: string)
    requires tail == "s" || tail == "m " || tail == "h "
    ensures WithoutSpaces(Dec(n) + tail + rest) == Dec(n) + [tail[0]] + WithoutSpaces(rest)
  {
    WithoutSpacesOfTwo(Dec(n) + tail, rest);
    WithoutSpacesOfTwo(Dec(n), tail);
    DigitsHaveNoSpaces(Dec(n));
    assert tail[1..] == "" || tail[1..] == " ";
    assert WithoutSpaces(" ") == "" by { assert " "[1..] == ""; }
    assert WithoutSpaces(tail) == [tail[0]];
  }

  lemma TotalOfFirst(c: Component, cs: seq<Component>)
    requires WellFormed(c) && AllWellFormed(cs)
    ensures AllWellFormed([c] + cs) && Total([c] + cs) == Amount(c) + Total(cs)
    ensures Render([c] + cs) == c.digits + [c.unit] + Render(cs)
  {
    assert ([c] + cs)[1..] == cs;
  }

  lemma TotalOfThree(h: Component, m: Component, s: Component)
    requires WellFormed(h) && WellFormed(m) && WellFormed(s)
    ensures Total([h, m, s]) == Amount(h) + Amount(m) + Amount(s)
    ensures Total([m, s]) == Amount(m) + Amount(s)
    ensures Total([s]) == Amount(s)
  {
    assert [h] + [m, s] == [h, m, s] && [m] + [s] == [m, s] && [s] + [] == [s];
    TotalOfFirst(s, []);
    TotalOfFirst(m, [s]);
    TotalOfFirst(h, [m, s]);
  }

  lemma RenderOfThree(h: Component, m: Component, s: Component)
    requires WellFormed(h) && WellFormed(m) && WellFormed(s)
    ensures Render([h, m, s]) == h.digits + [h.unit] + Render([m, s])
    ensures Render([m, s]) == m.digits + [m.unit] + Render([s])
    ensures Render([s]) == s.digits + [s.unit]
  {
    assert [h] + [m, s] == [h, m, s] && [m] + [s] == [m, s] && [s] + [] == [s];
    TotalOfFirst(s, []);
    TotalOfFirst(m, [s]);
    TotalOfFirst(h, [m, s]);
  }

  lemma Amounts(n: nat, u: char)
    requires IsUnit(u)
    ensures WellFormed(Component(Dec(n), u)) && Amount(Component(Dec(n), u)) == n * Multiplier(u)
  {
    ValueOfDec(n);
  }

  lemma PrintedTotal(secs: nat)
    ensures AllWellFormed(Printed(secs)) && Ordered(Printed(secs)) && Total(Printed(secs)) == secs
  {
    var hours, minutes, seconds := secs / 3600, secs % 3600 / 60, secs % 60;
    var h, m, s := Component(Dec(hours), 'h'), Component(Dec(minutes), 'm'), Component(Dec(seconds), 's');
    Amounts(hours, 'h');
    Amounts(minutes, 'm');
    Amounts(seconds, 's');
    TotalOfThree(h, m, s);
    Parts(secs);
  }

  lemma Parts(secs: nat)
    ensures secs == secs / 3600 * 3600 + secs % 3600 / 60 * 60 + secs % 60
  {
  }

  /** Components with a space between them. */
  function Spaced(cs: seq<Component>): string {
    if cs == [] then ""
    else cs[0].digits + [cs[0].unit] + if |cs| == 1 then "" else " " + Spaced(cs[1..])
  }

  /** No leading zeros. */
  predicate Plain(c: Component) { WellFormed(c) && (c.digits == "0" || c.digits[0] != '0') }

  /**
   How a count is written: units from some largest one down to seconds, none left out, no leading
   zeros, none but the seconds alone leading with zero, minutes and seconds under 60.
   */
  predicate Normal(cs: seq<Component>) {
    && 0 < |cs| <= 3 && (forall i | 0 <= i < |cs| :: Plain(cs[i]))
    && (forall i | 0 <= i < |cs| :: Order(cs[i].unit) == |cs| - 1 - i)
    && (forall i | 0 <= i < |cs| :: cs[i].unit != 'h' ==> Value(cs[i].digits) < 60)
    && (|cs| > 1 ==> Value(cs[0].digits) > 0)
  }

  /** Every count has one normal form, and that is printed. */
  lemma FormatMeans(secs: nat, cs: seq<Component>)
    ensures Normal(cs) && Total(cs) == secs <==> cs == Printed(secs)
    ensures FormatDuration(secs) == Spaced(Printed(secs))
  {
    PrintedIsNormal(secs);
    PrintedIsSpaced(secs);
    if Normal(cs) && Total(cs) == secs {
      NormalIsPrinted(cs);
    }
  }

  lemma PrintedIsNormal(secs: nat)
    ensures Normal(Printed(secs)) && Total(Printed(secs)) == secs
  {
    PrintedTotal(secs);
    NormalOf(secs / 3600, secs % 3600 / 60, secs % 60);
  }

  lemma NormalOf(hours: nat, minutes: nat, seconds: nat)
    requires minutes < 60 && seconds < 60
    ensures var h, m, s := Component(Dec(hours), 'h'), Component(Dec(minutes), 'm'), Component(Dec(seconds), 's');
            Normal(if hours > 0 then [h, m, s] else if minutes > 0 then [m, s] else [s])
  {
    PlainDec(hours, 'h');
    PlainDec(minutes, 'm');
    PlainDec(seconds, 's');
    var h, m, s := Component(Dec(hours), 'h'), Component(Dec(minutes), 'm'), Component(Dec(seconds), 's');
    if hours > 0 {
      NormalThree(h, m, s);
    } else if minutes > 0 {
      NormalTwo(m, s);
    } else {
      NormalOne(s);
    }
  }

  lemma NormalOne(s: Component)
    requires Plain(s) && s.unit == 's' && Value(s.digits) < 60
    ensures Normal([s])
  {
  }

  lemma NormalTwo(m: Component, s: Component)
    requires Plain(m) && Plain(s) && m.unit == 'm' && s.unit == 's'
    requires 0 < Value(m.digits) < 60 && Value(s.digits) < 60
    ensures Normal([m, s])
  {
  }

  lemma NormalThree(h: Component, m: Component, s: Component)
    requires Plain(h) && Plain(m) && Plain(s) && h.unit == 'h' && m.unit == 'm' && s.unit == 's'
    requires 0 < Value(h.digits) && Value(m.digits) < 60 && Value(s.digits) < 60
    ensures Normal([h, m, s])
  {
  }

  lemma PlainDec(n: nat, unit: char)
    requires IsUnit(unit)
    ensures Plain(Component(Dec(n), unit)) && Value(Dec(n)) == n
  {
    ValueOfDec(n);
  }

  lemma PrintedIsSpaced(secs: nat)
    ensures FormatDuration(secs) == Spaced(Printed(secs))
  {
    var hours, minutes, seconds := secs / 3600, secs % 3600 / 60, secs % 60;
    var h, m, s := Component(Dec(hours), 'h'), Component(Dec(minutes), 'm'), Component(Dec(seconds), 's');
    assert [m, s][1..] == [s] && [h, m, s][1..] == [m, s];
    assert Spaced([s]) == Dec(seconds) + "s";
    assert Spaced([m, s]) == Dec(minutes) + "m" + (" " + Spaced([s]));
    assert Spaced([m, s]) == Dec(minutes) + "m " + Dec(seconds) + "s";
    assert Spaced([h, m, s]) == Dec(hours) + "h" + (" " + Spaced([m, s]));
    assert Spaced([h, m, s]) == Dec(hours) + "h " + Dec(minutes) + "m " + Dec(seconds) + "s";
  }

  lemma NormalIsPrinted(cs: seq<Component>)
    requires Normal(cs)
    ensures cs == Printed(Total(cs))
  {
    if |cs| == 1 {
      assert cs == [cs[0]];
      PrintedOne(cs[0]);
    } else if |cs| == 2 {
      assert cs == [cs[0], cs[1]];
      PrintedTwo(cs[0], cs[1]);
    } else {
      assert cs == [cs[0], cs[1], cs[2]];
      PrintedThree(cs[0], cs[1], cs[2]);
    }
  }

  lemma PlainIsDec(c: Component)
    requires Plain(c)
    ensures c == Component(Dec(Value(c.digits)), c.unit)
  {
    DecOfValue(c.digits);
  }

  lemma PrintedOne(s: Component)
    requires Plain(s) && s.unit == 's' && Value(s.digits) < 60
    ensures [s] == Printed(Total([s]))
  {
    PlainIsDec(s);
    TotalOfThree(s, s, s);
    SplitsAs(0, 0, Value(s.digits));
  }

  lemma PrintedTwo(m: Component, s: Component)
    requires Plain(m) && Plain(s) && m.unit == 'm' && s.unit == 's'
    requires 0 < Value(m.digits) < 60 && Value(s.digits) < 60
    ensures [m, s] == Printed(Total([m, s]))
  {
    PlainIsDec(m);
    PlainIsDec(s);
    TotalOfThree(m, m, s);
    SplitsAs(0, Value(m.digits), Value(s.digits));
  }

  lemma PrintedThree(h: Component, m: Component, s: Component)
    requires Plain(h) && Plain(m) && Plain(s) && h.unit == 'h' && m.unit == 'm' && s.unit == 's'
    requires 0 < Value(h.digits) && Value(m.digits) < 60 && Value(s.digits) < 60
    ensures [h, m, s] == Printed(Total([h, m, s]))
  {
    PlainIsDec(h);
    PlainIsDec(m);
    PlainIsDec(s);
    TotalOfThree(h, m, s);
    SplitsAs(Value(h.digits), Value(m.digits), Value(s.digits));
  }

  lemma SplitsAs(h: nat, m: nat, s: nat)
    requires m < 60 && s < 60
    ensures var secs := h * 3600 + m * 60 + s; secs / 3600 == h && secs % 3600 / 60 == m && secs % 60 == s
  {
  }

  lemma PrintedText(secs: nat)
    ensures WithoutSpaces(FormatDuration(secs)) == Render(Printed(secs))
  {
    var hours, minutes, seconds := secs / 3600, secs % 3600 / 60, secs % 60;
    var h, m, s := Component(Dec(hours), 'h'), Component(Dec(minutes), 'm'), Component(Dec(seconds), 's');
    RenderOfThree(h, m, s);
    TextOfSeconds(seconds);
    TextOfMinutes(minutes, seconds);
    TextOfHours(hours, minutes, seconds);
  }

  lemma Join5(a: string, b: string, c: string, d: string, e: string)
    ensures a + b + c + d + e == a + (b + c + d + e)
  {
  }

  lemma TextOfSeconds(seconds: nat)
    ensures WithoutSpaces(Dec(seconds) + "s") == Dec(seconds) + ['s']
  {
    assert Dec(seconds) + "s" + "" == Dec(seconds) + "s";
    WithoutSpacesOfComponent(seconds, "s", "");
    assert WithoutSpaces("") == "" && Dec(seconds) + ['s'] + "" == Dec(seconds) + ['s'];
  }

  lemma TextOfMinutes(minutes: nat, seconds: nat)
    ensures WithoutSpaces(Dec(minutes) + "m " + Dec(seconds) + "s") == Dec(minutes) + ['m'] + (Dec(seconds) + ['s'])
  {
    assert Dec(minutes) + "m " + Dec(seconds) + "s" == Dec(minutes) + "m " + (Dec(seconds) + "s");
    WithoutSpacesOfComponent(minutes, "m ", Dec(seconds) + "s");
    TextOfSeconds(seconds);
  }

  lemma TextOfHours(hours: nat, minutes: nat, seconds: nat)
    ensures WithoutSpaces(Dec(hours) + "h " + Dec(minutes) + "m " + Dec(seconds) + "s") ==
            Dec(hours) + ['h'] + (Dec(minutes) + ['m'] + (Dec(seconds) + ['s']))
  {
    var rest := Dec(minutes) + "m " + Dec(seconds) + "s";
    Join5(Dec(hours) + "h ", Dec(minutes), "m ", Dec(seconds), "s");
    WithoutSpacesOfComponent(hours, "h ", rest);
    TextOfMinutes(minutes, seconds);
  }

  lemma {:induction false} RenderEnds(cs: seq<Component>)
    requires AllWellFormed(cs) && cs != []
    ensures var t := Render(cs); t != "" && IsDigit(t[0]) && IsUnit(t[|t| - 1])
    decreases |cs|
  {
    var head, rest := cs[0].digits + [cs[0].unit], Render(cs[1..]);
    assert Render(cs) == head + rest;
    assert head[0] == cs[0].digits[0];
    if |cs| > 1 {
      RenderEnds(cs[1..]);
      LastOf(head, rest);
    }
  }

  lemma LastOf(a: string, b: string)
    requires b != ""
    ensures (a + b)[|a + b| - 1] == b[|b| - 1]
  {
  }

  lemma TrimNothing(t: string)
    requires t != "" && IsDigit(t[0]) && IsUnit(t[|t| - 1])
    ensures Trim(t) == t && !AllDigits(t)
  {
  }

  /** For every 64-bit count, parsing what is printed, its spaces removed, gives the count back. */
  lemma FormatThenParse(secs: nat, r: Result<nat, Error>)
    requires secs < LIMIT && Reads(Trim(WithoutSpaces(FormatDuration(secs))), r)
    ensures r == Ok(secs)
  {
    var cs := Printed(secs);
    PrintedText(secs);
    PrintedTotal(secs);
    RenderEnds(cs);
    ReadsBack(cs, r);
  }

  lemma ReadsBack(cs: seq<Component>, r: Result<nat, Error>)
    requires AllWellFormed(cs) && Ordered(cs) && Total(cs) < LIMIT
    requires var t := Render(cs); t != "" && IsDigit(t[0]) && IsUnit(t[|t| - 1])
    requires Reads(Trim(Render(cs)), r)
    ensures r == Ok(Total(cs))
  {
    TrimNothing(Render(cs));
    assert IsDuration(Render(cs), cs);
  }
}
