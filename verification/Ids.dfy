/** Text of an `ingestion_id` and the UUID value that the unique index compares.

    The schema accepts any string (ingestion/schemas.py:28) and rows are sorted as
    strings, but `uq_raw_telemetry_ingestion_id` indexes UUID values, which do not
    depend on the case of the hexadecimal digits (section 4 of RFC 9562). */
module Ids {

  // ----- Python's string order -----

  /** Lexicographic comparison by code point. */
  predicate LexLe(a: string, b: string) {
    a == [] || (b != [] && (a[0] < b[0] || (a[0] == b[0] && LexLe(a[1..], b[1..]))))
  }

  predicate LexLt(a: string, b: string) {
    LexLe(a, b) && a != b
  }

  /** The texts agree up to i, where a has the smaller character. */
  predicate SmallerAt(a: string, b: string, i: nat) {
    i < |a| && i < |b| && a[..i] == b[..i] && a[i] < b[i]
  }

  /** One text is before another if it is a prefix of it, or smaller where they first differ. */
  lemma {:induction false} LexMeaning(a: string, b: string)
    ensures LexLe(a, b) <==> a <= b || exists i: nat :: SmallerAt(a, b, i)
  {
    if a != [] && b != [] {
      assert a == [a[0]] + a[1..] && b == [b[0]] + b[1..];
      LexMeaning(a[1..], b[1..]);
      if a[0] < b[0] { assert SmallerAt(a, b, 0); }
      if i: nat :| SmallerAt(a[1..], b[1..], i) {
        if a[0] == b[0] { assert SmallerAt(a, b, i + 1); }
      }
      if i: nat :| SmallerAt(a, b, i) {
        if i > 0 {
          assert a[..i][0] == b[..i][0] && a[1..][..i - 1] == a[..i][1..] && b[1..][..i - 1] == b[..i][1..];
          assert SmallerAt(a[1..], b[1..], i - 1);
        }
      }
    }
  }

  lemma {:induction false} LexTotal(a: string, b: string)
    ensures LexLe(a, b) || LexLe(b, a)
  {
    if a != [] && b != [] && a[0] == b[0] {
      LexTotal(a[1..], b[1..]);
    }
  }

  lemma {:induction false} LexTransitive(a: string, b: string, c: string)
    requires LexLe(a, b) && LexLe(b, c)
    ensures LexLe(a, c)
  {
    if a != [] && a[0] == b[0] == c[0] {
      LexTransitive(a[1..], b[1..], c[1..]);
    }
  }

  lemma {:induction false} LexAntisymmetric(a: string, b: string)
    requires LexLe(a, b) && LexLe(b, a)
    ensures a == b
  {
    if a != [] {
      LexAntisymmetric(a[1..], b[1..]);
      assert a == [a[0]] + a[1..] && b == [b[0]] + b[1..];
    }
  }

  lemma LexReflexive(a: string)
    ensures LexLe(a, a)
  {
    LexTotal(a, a);
  }

  /** Of finitely many strings, one is the greatest. */
  lemma {:induction false} LexMaximum(s: set<string>) returns (m: string)
    requires s != {}
    ensures m in s && forall x :: x in s ==> LexLe(x, m)
  {
    var one :| one in s;
    LexReflexive(one);
    var rest := s - {one};
    if rest == {} {
      m := one;
      assert forall x :: x in s ==> x == one by {
        forall x | x in s ensures x == one { assert x !in rest; }
      }
    } else {
      var top := LexMaximum(rest);
      LexTotal(one, top);
      m := if LexLe(one, top) then top else one;
      forall x | x in s ensures LexLe(x, m) {
        if x != one {
          assert x in rest;
          if m == one { LexTransitive(x, top, one); }
        }
      }
    }
  }

  // ----- UUID values -----

  predicate HexDigit(c: char) {
    '0' <= c <= '9' || 'a' <= c <= 'f' || 'A' <= c <= 'F'
  }

  function Lower(c: char): char {
    if 'A' <= c <= 'Z' then c - 'A' + 'a' else c
  }

  predicate HyphenAt(i: int) {
    i == 8 || i == 13 || i == 18 || i == 23
  }

  /** The 8-4-4-4-12 text form, digits in either case. */
  predicate UuidText(t: string) {
    |t| == 36 && forall i :: 0 <= i < 36 ==> if HyphenAt(i) then t[i] == '-' else HexDigit(t[i])
  }

  /** The UUID value of a text, written as its lower-case text. */
  function Key(t: string): (k: string)
    ensures |k| == |t|
  {
    seq(|t|, i requires 0 <= i < |t| => Lower(t[i]))
  }

  /** The form `str(uuid)` produces: the texts that are their own key. */
  predicate Canonical(t: string) {
    UuidText(t) && Key(t) == t
  }

  lemma KeyIsCanonical(t: string)
    requires UuidText(t)
    ensures Canonical(Key(t))
  {
    var k := Key(t);
    assert Key(k) == k by {
      forall i | 0 <= i < |k| ensures Key(k)[i] == k[i] {
        assert k[i] == Lower(t[i]);
      }
    }
  }

  /** The texts `str(uuid)` writes: groups of 8, 4, 4, 4 and 12 small hexadecimal digits. */
  lemma CanonicalSpelled(t: string)
    ensures Canonical(t) <==>
      |t| == 36 && forall i :: 0 <= i < 36 ==>
        if i == 8 || i == 13 || i == 18 || i == 23 then t[i] == '-' else t[i] in "0123456789abcdef"
  {
    if |t| == 36 {
      forall i | 0 <= i < 36
        ensures Key(t)[i] == Lower(t[i])
        ensures HexDigit(t[i]) && Lower(t[i]) == t[i] <==> t[i] in "0123456789abcdef"
      {
        SmallDigit(t[i]);
      }
      if Canonical(t) {
        forall i | 0 <= i < 36 ensures Lower(t[i]) == t[i] { assert Key(t)[i] == t[i]; }
      }
    }
  }

  lemma SmallDigit(c: char)
    ensures HexDigit(c) && Lower(c) == c <==> c in "0123456789abcdef"
  {
    var digits := "0123456789abcdef";
    if HexDigit(c) && Lower(c) == c {
      var k := if c <= '9' then c as int - '0' as int else c as int - 'a' as int + 10;
      assert digits[k] == c;
    }
  }
}
