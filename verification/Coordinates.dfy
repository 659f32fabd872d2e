/** Cell coordinates (engine/assembly/xlsx_patch.py, `split_coord`). */
module Coordinates {
  import opened Wrappers

  predicate IsUpper(c: char) { 'A' <= c <= 'Z' }
  predicate IsDigit(c: char) { '0' <= c <= '9' }

  /** Bijective base 26: A = 1, Z = 26, AA = 27. */
  function Column(letters: string): nat
    requires forall k | 0 <= k < |letters| :: IsUpper(letters[k])
  {
    if letters == "" then 0
    else
      assert IsUpper(letters[|letters| - 1]);
      26 * Column(letters[..|letters| - 1]) + (letters[|letters| - 1] as int - 64)
  }

  function Number(digits: string): nat
    requires forall k | 0 <= k < |digits| :: IsDigit(digits[k])
  {
    if digits == "" then 0
    else
      assert IsDigit(digits[|digits| - 1]);
      10 * Number(digits[..|digits| - 1]) + (digits[|digits| - 1] as int - 48)
  }

  /** How many leading characters are capital letters. */
  function Letters(s: string): (n: nat)
    ensures n <= |s|
    ensures forall k | 0 <= k < n :: IsUpper(s[k])
    ensures n < |s| ==> !IsUpper(s[n])
  {
    if s == "" || !IsUpper(s[0]) then 0 else 1 + Letters(s[1..])
  }

  /** `$` also matches before one final newline. */
  function Chomp(s: string): string {
    if s != "" && s[|s| - 1] == '\n' then s[..|s| - 1] else s
  }

  /** `^([A-Z]{1,3})([0-9]{1,7})$` matches. */
  predicate Matches(coord: string) {
    var s := Chomp(coord);
    var n := Letters(s);
    && 1 <= n <= 3 && 1 <= |s| - n <= 7
    && forall k | n <= k < |s| :: IsDigit(s[k])
  }

  /** (column, row), or the refusal of anything that is not a coordinate. */
  function SplitCoord(coord: string): Result<(nat, nat), string> {
    if !Matches(coord) then Raised(coord)
    else
      var s := Chomp(coord);
      var n := Letters(s);
      Ok((Column(s[..n]), Number(s[n..])))
  }

  /** As spreadsheets write it: no leading zero, nothing after the digits. */
  predicate Canonical(coord: string) {
    Matches(coord) && Chomp(coord) == coord && coord[Letters(coord)] != '0'
  }

  lemma {:induction false} ColumnPositive(letters: string)
    requires forall k | 0 <= k < |letters| :: IsUpper(letters[k])
    ensures Column(letters) == 0 <==> letters == ""
  {
  }

  lemma {:induction false} ColumnInjective(s: string, t: string)
    requires forall k | 0 <= k < |s| :: IsUpper(s[k])
    requires forall k | 0 <= k < |t| :: IsUpper(t[k])
    requires Column(s) == Column(t)
    ensures s == t
  {
    ColumnPositive(s);
    ColumnPositive(t);
    if s != "" {
      var a, b := s[|s| - 1], t[|t| - 1];
      assert a == b && Column(s[..|s| - 1]) == Column(t[..|t| - 1]);
      ColumnInjective(s[..|s| - 1], t[..|t| - 1]);
      assert s == s[..|s| - 1] + [a] && t == t[..|t| - 1] + [b];
    }
  }

  lemma {:induction false} NumberPositive(digits: string)
    requires digits != "" && (forall k | 0 <= k < |digits| :: IsDigit(digits[k])) && digits[0] != '0'
    ensures Number(digits) > 0
  {
    if |digits| > 1 {
      NumberPositive(digits[..|digits| - 1]);
    } else {
      assert digits[..0] == "";
    }
  }

  lemma {:induction false} NumberInjective(s: string, t: string)
    requires forall k | 0 <= k < |s| :: IsDigit(s[k])
    requires forall k | 0 <= k < |t| :: IsDigit(t[k])
    requires (s != "" ==> s[0] != '0') && (t != "" ==> t[0] != '0')
    requires Number(s) == Number(t)
    ensures s == t
  {
    if s == "" || t == "" {
      if s != "" { NumberPositive(s); }
      if t != "" { NumberPositive(t); }
    } else {
      var a, b := s[|s| - 1], t[|t| - 1];
      var s', t' := s[..|s| - 1], t[..|t| - 1];
      assert a == b && Number(s') == Number(t');
      NumberInjective(s', t');
      assert s == s' + [a] && t == t' + [b];
    }
  }

  /** Canonical coordinates name one cell each. */
  lemma SplitCoordInjective(c: string, d: string)
    requires Canonical(c) && Canonical(d) && SplitCoord(c) == SplitCoord(d)
    ensures c == d
  {
    var m, n := Letters(c), Letters(d);
    ColumnInjective(c[..m], d[..n]);
    NumberInjective(c[m..], d[n..]);
    assert c == c[..m] + c[m..] && d == d[..n] + d[n..];
  }

  /** Without "canonical" it fails: A1, A01 and "A1\n" are one cell. */
  lemma LeadingZeroAliases()
    ensures SplitCoord("A1") == SplitCoord("A01") == SplitCoord("A1\n") == Ok((1, 1))
  {
    assert Chomp("A1") == "A1" && Chomp("A01") == "A01" && Chomp("A1\n") == "A1";
    assert Letters("A1") == 1 && Letters("A01") == 1;
    assert "A1"[1..] == "1" && "A01"[1..] == "01" && "A1"[..1] == "A" && "A01"[..1] == "A";
    assert Column("A") == 1 by { assert "A"[..0] == ""; }
    assert Number("1") == 1 by { assert "1"[..0] == ""; }
    assert Number("0") == 0 by { assert "0"[..0] == ""; }
    assert "01"[..1] == "0";
  }
}
