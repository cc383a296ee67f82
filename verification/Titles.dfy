/**
 Movie titles as C strings (hw4_simple-movies-recommendation-system/lib.c): strcmp order, and
 what the secret suffix does to it. Leaves of the sort compare plain titles and merges compare
 decorated ones, so the whole sort depends on the suffix keeping the order.
 */
module Titles {

  // A byte of a C string; the terminating NUL is not part of the value.
  type Byte = b: int | 1 <= b <= 255 witness 1

  type Text = seq<Byte>

  // strcmp(a, b) < 0: the first differing byte decides, as unsigned char.
  predicate Less(a: Text, b: Text) {
    if b == [] then false
    else if a == [] then true
    else if a[0] != b[0] then a[0] < b[0]
    else Less(a[1..], b[1..])
  }

  lemma {:induction false} LessTotal(a: Text, b: Text)
    ensures !(Less(a, b) && Less(b, a))
    ensures !Less(a, b) && !Less(b, a) ==> a == b
    ensures !Less(a, a)
  {
    if a != [] && b != [] && a[0] == b[0] {
      LessTotal(a[1..], b[1..]);
      assert a == [a[0]] + a[1..] && b == [b[0]] + b[1..];
    }
    if a != [] { LessTotal(a[1..], a[1..]); }
  }

  lemma {:induction false} LessTransitive(a: Text, b: Text, c: Text)
    requires Less(a, b) && Less(b, c)
    ensures Less(a, c)
  {
    if a != [] && a[0] == b[0] == c[0] {
      LessTransitive(a[1..], b[1..], c[1..]);
    }
  }

  // The texts agree before place `k`, and there the first one ends or has the smaller byte.
  predicate SmallerAt(a: Text, b: Text, k: int) {
    0 <= k <= |a| && k < |b| && a[..k] == b[..k] && (k == |a| || a[k] < b[k])
  }

  // The order of strcmp without recursion: the first difference decides.
  lemma {:induction false} LessExact(a: Text, b: Text)
    ensures Less(a, b) <==> exists k :: SmallerAt(a, b, k)
  {
    if a != [] && b != [] && a[0] == b[0] {
      LessExact(a[1..], b[1..]);
      forall k | SmallerAt(a[1..], b[1..], k) ensures SmallerAt(a, b, k + 1) { SmallerLater(a, b, k); }
      forall k | SmallerAt(a, b, k) ensures SmallerAt(a[1..], b[1..], k - 1) { SmallerLater(a, b, k - 1); }
    } else if Less(a, b) {
      assert SmallerAt(a, b, 0);
    } else {
      forall k ensures !SmallerAt(a, b, k) {
        if SmallerAt(a, b, k) && k > 0 { SmallerHead(a, b, k); }
      }
    }
  }

  lemma SmallerHead(a: Text, b: Text, k: int)
    requires SmallerAt(a, b, k) && k > 0
    ensures a != [] && b != [] && a[0] == b[0]
  {
    assert a[..k][0] == b[..k][0];
  }

  lemma SmallerLater(a: Text, b: Text, k: int)
    requires a != [] && b != [] && a[0] == b[0] && k >= -1
    ensures SmallerAt(a, b, k + 1) <==> SmallerAt(a[1..], b[1..], k)
  {
    if 0 <= k < |a| && k < |b| - 1 {
      assert a[..k + 1] == [a[0]] + a[1..][..k] && b[..k + 1] == [b[0]] + b[1..][..k];
    }
  }

  const SECRET: Text := [9, 91, 73, 116, 39, 115, 32, 116, 111, 112, 32, 115, 101, 99, 114, 101, 116, 46, 93]

  lemma SecretText()
    ensures |SECRET| == |"\t[It's top secret.]"|
    ensures forall i | 0 <= i < |SECRET| :: SECRET[i] == "\t[It's top secret.]"[i] as int
  {}

  function AddSecret(s: Text): Text {
    s + SECRET
  }

  // Title `b` does not continue title `a` by something that strcmp puts before the secret.
  predicate Continues(a: Text, b: Text) {
    a < b ==> !Less(b[|a|..], SECRET)
  }

  predicate Compatible(a: Text, b: Text) {
    Continues(a, b) && Continues(b, a)
  }

  // Comparing what is left of a suffix `s` with another text followed by all of `s`, when the
  // first byte of `s` is smaller than all its others.
  lemma {:induction false} AfterSuffix(s: Text, c: Text, k: nat)
    requires s != [] && (forall i | 0 < i < |s| :: s[i] > s[0])
    requires k <= |s| && (k == 0 ==> c != [])
    ensures Less(s[k..], c + s) <==> !Less(c, s[k..])
    decreases |c|
  {
    var t := s[k..];
    if c == [] {
      assert c + s == s;
    } else if t != [] && c[0] == t[0] {
      assert (c + s)[1..] == c[1..] + s && t[1..] == s[k + 1..];
      AfterSuffix(s, c[1..], k + 1);
    }
  }

  lemma AfterSecret(c: Text)
    requires c != []
    ensures Less(SECRET, c + SECRET) <==> !Less(c, SECRET)
  {
    AfterSuffix(SECRET, c, 0);
    assert SECRET[0..] == SECRET;
  }

  // Exactly when the suffix keeps the order of two titles.
  lemma {:induction false} SecretKeepsOrder(a: Text, b: Text)
    ensures (Less(AddSecret(a), AddSecret(b)) <==> Less(a, b)) && (Less(AddSecret(b), AddSecret(a)) <==> Less(b, a))
      <==> Compatible(a, b)
  {
    LessTotal(AddSecret(a), AddSecret(b));
    if a != [] && b != [] {
      assert AddSecret(a)[1..] == AddSecret(a[1..]) && AddSecret(b)[1..] == AddSecret(b[1..]);
      if a[0] == b[0] {
        SecretKeepsOrder(a[1..], b[1..]);
        CompatibleTail(a, b);
      }
    } else if b != [] {
      AfterSecret(b);
      assert AddSecret(a) == SECRET && b[|a|..] == b;
      assert SECRET != AddSecret(b) by { assert |AddSecret(b)| > |SECRET|; }
    } else if a != [] {
      AfterSecret(a);
      assert AddSecret(b) == SECRET && a[|b|..] == a;
      assert SECRET != AddSecret(a) by { assert |AddSecret(a)| > |SECRET|; }
    }
  }

  lemma CompatibleTail(a: Text, b: Text)
    requires a != [] && b != [] && a[0] == b[0]
    ensures Compatible(a, b) <==> Compatible(a[1..], b[1..])
  {
    assert a == [a[0]] + a[1..] && b == [b[0]] + b[1..];
    assert a < b <==> a[1..] < b[1..];
    assert b < a <==> b[1..] < a[1..];
    if a < b { assert b[|a|..] == b[1..][|a[1..]|..]; }
    if b < a { assert a[|b|..] == a[1..][|b[1..]|..]; }
  }

  // Titles of printable bytes are always compatible ...
  lemma PrintableCompatible(a: Text, b: Text)
    requires (forall i | 0 <= i < |a| :: a[i] > 9) && (forall i | 0 <= i < |b| :: b[i] > 9)
    ensures Compatible(a, b)
  {}

  // ... and titles with a tab need not be.
  lemma TabTitlesIncompatible()
    ensures Less([65], [65, 9]) && !Less(AddSecret([65]), AddSecret([65, 9]))
  {
    var a: Text, b: Text := [65], [65, 9];
    assert a[1..] == [] && b[1..] == [9];
    assert AddSecret(a)[1..] == SECRET && AddSecret(b)[1..] == [9] + SECRET;
    assert AddSecret(a)[1..][1..] == SECRET[1..] && AddSecret(b)[1..][1..] == SECRET;
  }
}
