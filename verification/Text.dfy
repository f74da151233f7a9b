/** Strings: their order, decimal numerals, and sorting keys. */
module Text {

  /** The order of `str`: byte-wise on UTF-8, which is by code point. */
  predicate Less(a: string, b: string) {
    b != "" && (a == "" || a[0] < b[0] || (a[0] == b[0] && Less(a[1..], b[1..])))
  }

  lemma LessTotal(a: string, b: string)
    ensures a == b || Less(a, b) || Less(b, a)
    ensures !(Less(a, b) && Less(b, a)) && !Less(a, a)
  {
    if a != "" && b != "" && a[0] == b[0] {
      LessTotal(a[1..], b[1..]);
      assert a == [a[0]] + a[1..] && b == [b[0]] + b[1..];
    }
  }

  /** a is a proper prefix of b, or has the smaller character where they first differ. */
  lemma {:induction false} LessMeans(a: string, b: string)
    ensures Less(a, b) <==>
            exists n :: 0 <= n <= |a| && n < |b| && a[..n] == b[..n] && (n == |a| || a[n] < b[n])
    decreases |a|
  {
    if a != "" && b != "" && a[0] == b[0] {
      LessMeans(a[1..], b[1..]);
      if Less(a[1..], b[1..]) {
        var n :| 0 <= n <= |a[1..]| && n < |b[1..]| && a[1..][..n] == b[1..][..n] && (n == |a[1..]| || a[1..][n] < b[1..][n]);
        assert a[..n + 1] == [a[0]] + a[1..][..n] && b[..n + 1] == [b[0]] + b[1..][..n];
      }
      if n :| 0 <= n <= |a| && n < |b| && a[..n] == b[..n] && (n == |a| || a[n] < b[n]) {
        assert n > 0;
        assert a[1..][..n - 1] == a[..n][1..] && b[1..][..n - 1] == b[..n][1..];
      }
    } else if Less(a, b) {
      assert a[..0] == b[..0];
    }
  }

  lemma LessTransitive(a: string, b: string, c: string)
    requires Less(a, b) && Less(b, c)
    ensures Less(a, c)
  {
    if a != "" && a[0] == b[0] == c[0] {
      LessTransitive(a[1..], b[1..], c[1..]);
    }
  }

  predicate Sorted(ks: seq<string>) {
    forall i, j | 0 <= i < j < |ks| :: Less(ks[i], ks[j])
  }

  function Elements(ks: seq<string>): set<string> { set k | k in ks }

  lemma InsertFirst(k: string, ks: seq<string>)
    requires ks != [] && Sorted(ks) && Less(k, ks[0])
    ensures Sorted([k] + ks) && Elements([k] + ks) == Elements(ks) + {k}
  {
    forall j | 0 < j < |ks| ensures Less(k, ks[j]) { LessTransitive(k, ks[0], ks[j]); }
  }

  lemma InsertLater(k: string, ks: seq<string>, rest: seq<string>)
    requires ks != [] && Sorted(ks) && k != ks[0] && !Less(k, ks[0])
    requires Sorted(rest) && Elements(rest) == Elements(ks[1..]) + {k}
    ensures Sorted([ks[0]] + rest) && Elements([ks[0]] + rest) == Elements(ks) + {k}
  {
    LessTotal(k, ks[0]);
    forall j | 0 <= j < |rest| ensures Less(ks[0], rest[j]) { assert rest[j] in Elements(rest); }
    assert ks == [ks[0]] + ks[1..];
    assert Elements(ks) == Elements(ks[1..]) + {ks[0]};
    assert Elements([ks[0]] + rest) == Elements(rest) + {ks[0]};
  }

  function Insert(k: string, ks: seq<string>): (r: seq<string>)
    requires Sorted(ks)
    ensures Sorted(r) && Elements(r) == Elements(ks) + {k}
  {
    if ks == [] then [k]
    else if k == ks[0] then ks
    else if Less(k, ks[0]) then
      InsertFirst(k, ks);
      [k] + ks
    else
      var rest := Insert(k, ks[1..]);
      InsertLater(k, ks, rest);
      [ks[0]] + rest
  }

  ghost function SortedKeys(keys: set<string>): (r: seq<string>)
    ensures Sorted(r) && Elements(r) == keys
  {
    if keys == {} then [] else
      var k :| k in keys;
      Insert(k, SortedKeys(keys - {k}))
  }

  /** Sorting has one result, whatever order the keys came in. */
  lemma {:induction false} SortedIsUnique(a: seq<string>, b: seq<string>)
    requires Sorted(a) && Sorted(b) && Elements(a) == Elements(b)
    ensures a == b
    decreases |a|
  {
    assert b != [] ==> b[0] in Elements(b);
    if a != [] {
      assert a[0] in Elements(b);
      assert b != [];
      assert b[0] in Elements(a);
      assert a[0] == b[0] by {
        var i :| 0 <= i < |b| && b[i] == a[0];
        var j :| 0 <= j < |a| && a[j] == b[0];
        LessTotal(a[0], b[0]);
      }
      Tail(a);
      Tail(b);
      SortedIsUnique(a[1..], b[1..]);
    }
  }

  lemma Tail(a: seq<string>)
    requires a != [] && Sorted(a)
    ensures Sorted(a[1..]) && Elements(a[1..]) == Elements(a) - {a[0]}
  {
    LessTotal(a[0], a[0]);
    assert a == [a[0]] + a[1..];
    forall k | k in a[1..] ensures k != a[0] {
      var j :| 0 <= j < |a[1..]| && a[1..][j] == k;
      assert Less(a[0], a[j + 1]);
    }
  }

  /** Keys in whatever order the iteration yields them, sorted by insertion. */
  method Sort(keys: set<string>) returns (ks: seq<string>)
    ensures ks == SortedKeys(keys)
  {
    ks := [];
    var rest := keys;
    while rest != {}
      invariant rest <= keys && Sorted(ks) && Elements(ks) == keys - rest
      decreases rest
    {
      var k :| k in rest;
      ks := Insert(k, ks);
      rest := rest - {k};
    }
    SortedIsUnique(ks, SortedKeys(keys));
  }

  /****** decimal numerals ******/

  predicate IsDigit(c: char) { '0' <= c <= '9' }

  predicate AllDigits(s: string) { forall i | 0 <= i < |s| :: IsDigit(s[i]) }

  function DigitOf(n: nat): (c: char)
    requires n < 10
    ensures IsDigit(c) && DigitValue(c) == n
  {
    '0' + n as char
  }

  function DigitValue(c: char): nat
    requires IsDigit(c)
  {
    (c - '0') as nat
  }

  function Dec(n: nat): (s: string)
    ensures s != "" && AllDigits(s)
  {
    if n < 10 then [DigitOf(n)] else Dec(n / 10) + [DigitOf(n % 10)]
  }

  function Value(s: string): nat
    requires AllDigits(s)
  {
    if s == "" then 0 else 10 * Value(s[..|s| - 1]) + DigitValue(s[|s| - 1])
  }

  lemma ValueOfDec(n: nat)
    ensures Value(Dec(n)) == n
    ensures Dec(n)[0] == '0' <==> n == 0
  {
    if n >= 10 {
      ValueOfDec(n / 10);
      assert Dec(n)[..|Dec(n)| - 1] == Dec(n / 10);
    }
  }

  lemma DigitChar(c: char)
    requires IsDigit(c)
    ensures DigitOf(DigitValue(c)) == c
  {
  }

  /** A numeral without leading zeros is the one its value has. */
  lemma {:induction false} DecOfValue(s: string)
    requires s != "" && AllDigits(s) && (s == "0" || s[0] != '0')
    ensures Dec(Value(s)) == s && (s != "0" ==> Value(s) > 0)
    decreases |s|
  {
    var n := |s| - 1;
    DigitChar(s[n]);
    assert s == s[..n] + [s[n]];
    if n > 0 {
      DecOfValue(s[..n]);
      assert Value(s) / 10 == Value(s[..n]) && Value(s) % 10 == DigitValue(s[n]);
    } else {
      assert s[..0] == "" && Value(s) == DigitValue(s[0]);
    }
  }
}
