/**
 The servers' own string-to-integer conversion (hw1_csiebooking/server.c:135-154), whose error
 result is a number a client can also type.
 */
module Numbers {
  import opened Bookings

  predicate Digit(c: char) {
    '0' <= c <= '9'
  }

  predicate Digits(s: string) {
    forall i | 0 <= i < |s| :: Digit(s[i])
  }

  function Value(s: string): nat
    requires Digits(s)
  {
    if s == "" then 0 else Value(s[..|s| - 1]) * 10 + (s[|s| - 1] as int - '0' as int)
  }

  predicate Signed(s: string) {
    s != "" && s[0] == '-'
  }

  function Unsigned(s: string): string {
    if Signed(s) then s[1..] else s
  }

  // The number a string stands for, if it stands for one.
  function Number(s: string): Option<int> {
    var t := Unsigned(s);
    if !Digits(t) then None else var v: int := Value(t); Some(if Signed(s) then -v else v)
  }

  function Converted(s: string): int {
    if Number(s).Some? then Number(s).value else ERROR_NUM
  }

  // A string stands for a number exactly if all its characters are digits, a minus at its head excepted.
  lemma NumberExact(s: string)
    ensures Number(s).None? <==>
              exists i :: 0 <= i < |s| && !('0' <= s[i] <= '9') && (i > 0 || s[0] != '-')
  {
    var t := Unsigned(s);
    if Signed(s) {
      forall i | 0 < i < |s| ensures s[i] == t[i - 1] {}
      forall i | 0 <= i < |t| ensures t[i] == s[i + 1] {}
    }
    if i :| 0 <= i < |s| && !('0' <= s[i] <= '9') && (i > 0 || s[0] != '-') {
      assert !Digit(t[if Signed(s) then i - 1 else i]);
    }
  }

  // The error result means that the string is no number, or that it is the error number itself.
  method Convert(s: string) returns (res: int)
    ensures res == Converted(s)
    ensures Number(s).Some? ==> res == Number(s).value
    ensures res == ERROR_NUM <==> Number(s) == None || Number(s) == Some(-100000)
  {
    var negative, t := 1, s;
    if s != "" && s[0] == '-' {
      negative := -1;
      t := s[1..];
    }
    assert t == Unsigned(s);
    res := 0;
    var i := 0;
    while i < |t|
      invariant i <= |t| && Digits(t[..i]) && res == Value(t[..i])
    {
      if t[i] < '0' || t[i] > '9' {
        assert !Digit(t[i]);
        return ERROR_NUM;
      }
      assert t[..i + 1][..i] == t[..i];
      res := res * 10;
      res := res + (t[i] as int - '0' as int);
      i := i + 1;
    }
    assert t[..i] == t;
    res := negative * res;
  }

  function DigitOf(k: nat): (c: char)
    requires k < 10
    ensures Digit(c) && c as int - '0' as int == k
  {
    ('0' as int + k) as char
  }

  lemma AppendValue(s: string, c: char)
    requires Digits(s) && Digit(c)
    ensures Digits(s + [c]) && Value(s + [c]) == Value(s) * 10 + (c as int - '0' as int)
  {
    assert (s + [c])[..|s|] == s;
  }

  // The decimal numeral of a number.
  function Numeral(n: nat): (s: string)
    ensures s != ""
  {
    if n < 10 then [DigitOf(n)] else Numeral(n / 10) + [DigitOf(n % 10)]
  }

  lemma {:induction false} NumeralValue(n: nat)
    ensures Digits(Numeral(n)) && Value(Numeral(n)) == n
  {
    if n < 10 {
      AppendValue("", DigitOf(n));
      assert "" + [DigitOf(n)] == [DigitOf(n)];
    } else {
      NumeralValue(n / 10);
      AppendValue(Numeral(n / 10), DigitOf(n % 10));
    }
  }

  // Every number has a string that converts to it.
  lemma NumeralConverts(n: int)
    ensures Converted(if n < 0 then "-" + Numeral(-n) else Numeral(n)) == n
  {
    if n < 0 {
      var s := "-" + Numeral(-n);
      assert s[1..] == Numeral(-n);
      NumeralValue(-n);
    } else {
      NumeralValue(n);
      assert Digit(Numeral(n)[0]);
    }
  }

  // A client that types this number is answered as if it had typed no number.
  lemma ErrorNumberTyped()
    ensures Number("-100000") == Some(ERROR_NUM) && Converted("-100000") == ERROR_NUM
  {
    var t := "100000";
    assert "-100000"[1..] == t;
    var s := "";
    s := Typed(Typed(Typed(Typed(Typed(Typed("", '1', 1), '0', 10), '0', 100), '0', 1000), '0', 10000), '0', 100000);
    assert s == t;
  }

  // Typing one more digit.
  function Typed(s: string, c: char, v: nat): (z: string)
    requires Digits(s) && Digit(c) && v == Value(s) * 10 + (c as int - '0' as int)
    ensures Digits(z) && Value(z) == v && z == s + [c]
  {
    AppendValue(s, c);
    s + [c]
  }
}
