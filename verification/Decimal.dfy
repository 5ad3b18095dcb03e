/** Decimal strings, the form in which integer keys survive JSON. */
module Decimal {
  import opened Collections

  function DigitChar(d: int): (c: char)
    requires 0 <= d < 10
    ensures '0' <= c <= '9' && DigitValue(c) == d
  {
    '0' + d as char
  }

  function DigitValue(c: char): int {
    c as int - '0' as int
  }

  function NatDec(n: nat): (s: string)
    ensures s != [] && forall i | 0 <= i < |s| :: '0' <= s[i] <= '9'
  {
    if n < 10 then [DigitChar(n)] else NatDec(n / 10) + [DigitChar(n % 10)]
  }

  /** `str(n)` */
  function Dec(n: int): string {
    if n < 0 then "-" + NatDec(-n) else NatDec(n)
  }

  function NatValue(s: string): int {
    if s == [] then 0 else 10 * NatValue(s[..|s| - 1]) + DigitValue(s[|s| - 1])
  }

  function Value(s: string): int {
    if s != [] && s[0] == '-' then -NatValue(s[1..]) else NatValue(s)
  }

  /** `int(s)` on canonical decimals; None stands for the ValueError. */
  function ParseDec(s: string): (r: Option<int>)
    ensures r.Some? ==> Dec(r.value) == s
  {
    if Dec(Value(s)) == s then Some(Value(s)) else None
  }

  lemma {:induction false} NatValueOfDec(n: nat)
    ensures NatValue(NatDec(n)) == n
  {
    var s := NatDec(n);
    if n >= 10 {
      NatValueOfDec(n / 10);
      assert s[..|s| - 1] == NatDec(n / 10);
    } else {
      assert s[..|s| - 1] == [];
    }
  }

  /** Every integer survives being written as a key and read back. */
  lemma ParseOfDec(n: int)
    ensures ParseDec(Dec(n)) == Some(n)
  {
    if n < 0 {
      NatValueOfDec(-n);
      assert Dec(n)[1..] == NatDec(-n);
    } else {
      NatValueOfDec(n);
    }
  }

  lemma DecInjective(m: int, n: int)
    requires Dec(m) == Dec(n)
    ensures m == n
  {
    ParseOfDec(m);
    ParseOfDec(n);
  }

  // ---------------------------------------------------------------------------
  // Dictionaries whose integer keys are written as strings
  // ---------------------------------------------------------------------------

  /** `dec` reads exactly what `enc` writes. */
  ghost predicate Codec(enc: int -> string, dec: string -> Option<int>) {
    && (forall k :: dec(enc(k)) == Some(k))
    && (forall key :: dec(key).Some? ==> enc(dec(key).value) == key)
  }

  lemma DecimalCodec()
    ensures Codec(Dec, ParseDec)
  {
    forall k ensures ParseDec(Dec(k)) == Some(k) {
      ParseOfDec(k);
    }
    forall key | ParseDec(key).Some? ensures Dec(ParseDec(key).value) == key {
    }
  }

  function Keyed<V>(m: map<int, V>, enc: int -> string, dec: string -> Option<int>): map<string, V>
    requires Codec(enc, dec)
  {
    map key | key in (set k | k in m :: enc(k)) :: m[dec(key).value]
  }

  predicate KeysParse<V>(f: map<string, V>, dec: string -> Option<int>) {
    forall key | key in f :: dec(key).Some?
  }

  function Unkeyed<V>(f: map<string, V>, enc: int -> string, dec: string -> Option<int>): map<int, V>
    requires Codec(enc, dec) && KeysParse(f, dec)
  {
    map k | k in (set key | key in f :: dec(key).value) :: f[enc(k)]
  }

  lemma KeyedHolds<V>(m: map<int, V>, k: int, enc: int -> string, dec: string -> Option<int>)
    requires Codec(enc, dec) && k in m
    ensures enc(k) in Keyed(m, enc, dec) && Keyed(m, enc, dec)[enc(k)] == m[k] && dec(enc(k)) == Some(k)
  {
    assert dec(enc(k)) == Some(k);
  }

  lemma KeyedOnly<V>(m: map<int, V>, key: string, enc: int -> string, dec: string -> Option<int>)
    requires Codec(enc, dec) && key in Keyed(m, enc, dec)
    ensures dec(key).Some? && dec(key).value in m && Keyed(m, enc, dec)[key] == m[dec(key).value]
    ensures enc(dec(key).value) == key
  {
  }

  lemma KeyedValues<V>(m: map<int, V>, enc: int -> string, dec: string -> Option<int>)
    requires Codec(enc, dec)
    ensures Keyed(m, enc, dec).Values == m.Values
  {
    hide Keyed;
    var f := Keyed(m, enc, dec);
    forall k | k in m ensures m[k] in f.Values {
      KeyedHolds(m, k, enc, dec);
      assert f[enc(k)] in f.Values;
    }
    forall key | key in f ensures f[key] in m.Values {
      KeyedOnly(m, key, enc, dec);
      assert m[dec(key).value] in m.Values;
    }
  }

  lemma UnkeyedBack<V>(m: map<int, V>, enc: int -> string, dec: string -> Option<int>)
    requires Codec(enc, dec) && KeysParse(Keyed(m, enc, dec), dec)
    ensures Unkeyed(Keyed(m, enc, dec), enc, dec) == m
  {
    hide Keyed;
    var f := Keyed(m, enc, dec);
    var back := Unkeyed(f, enc, dec);
    forall k | k in m ensures k in back && back[k] == m[k] {
      KeyedHolds(m, k, enc, dec);
    }
    forall key | key in f ensures dec(key).value in m {
      KeyedOnly(m, key, enc, dec);
    }
    assert back.Keys == m.Keys;
  }

  lemma KeyedRoundTrip<V>(m: map<int, V>, enc: int -> string, dec: string -> Option<int>)
    requires Codec(enc, dec)
    ensures KeysParse(Keyed(m, enc, dec), dec)
    ensures Unkeyed(Keyed(m, enc, dec), enc, dec) == m
    ensures Keyed(m, enc, dec).Values == m.Values
  {
    hide Keyed, Unkeyed;
    forall key | key in Keyed(m, enc, dec) ensures dec(key).Some? {
      KeyedOnly(m, key, enc, dec);
    }
    UnkeyedBack(m, enc, dec);
    KeyedValues(m, enc, dec);
  }
}
