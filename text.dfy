/**
 * The pieces of JavaScript string handling the generators rely on:
 * `String.prototype.trim`, `String.prototype.split` with a one-character
 * separator, the all-digits test `/^\d+$/`, `parseInt(s, 10)` of such a
 * string, and the test `Number(v) === 1` on a trimmed cell.
 */
module Text {

  /** The characters `trim` removes: ECMAScript WhiteSpace and
      LineTerminator. None of them can be part of a number or a separator
      of the grid files. */
  predicate IsJsSpace(c: char): (b: bool)
    ensures b ==> !('0' <= c <= '9') && c != ',' && c != '.' && c != '+' && c != '-'
  {
    c == ' ' || c == '\t' || c == '\n' || c == '\r' || c == '\U{000B}' || c == '\U{000C}'
    || c == '\U{00A0}' || c == '\U{1680}' || ('\U{2000}' <= c <= '\U{200A}')
    || c == '\U{2028}' || c == '\U{2029}' || c == '\U{202F}' || c == '\U{205F}'
    || c == '\U{3000}' || c == '\U{FEFF}'
  }

  ghost predicate AllSpaces(s: string)
  {
    forall i :: 0 <= i < |s| ==> IsJsSpace(s[i])
  }

  /** The number of whitespace characters at the front of s. */
  function LeadingSpaces(s: string): (n: nat)
    ensures n <= |s|
    ensures AllSpaces(s[..n])
    ensures n < |s| ==> !IsJsSpace(s[n])
  {
    if s == [] || !IsJsSpace(s[0]) then 0
    else
      var m := LeadingSpaces(s[1..]);
      assert s[..m + 1] == [s[0]] + s[1..][..m];
      m + 1
  }

  /** The number of whitespace characters at the back of s. */
  function TrailingSpaces(s: string): (n: nat)
    ensures n <= |s|
    ensures AllSpaces(s[|s| - n..])
    ensures n < |s| ==> !IsJsSpace(s[|s| - n - 1])
  {
    if s == [] || !IsJsSpace(s[|s| - 1]) then 0
    else
      var init := s[..|s| - 1];
      var m := TrailingSpaces(init);
      assert s[|s| - (m + 1)..] == init[|init| - m..] + [s[|s| - 1]];
      m + 1
  }

  /** `s.trim()`: s without its leading and trailing whitespace. */
  function Trim(s: string): (r: string)
    ensures r == [] || (!IsJsSpace(r[0]) && !IsJsSpace(r[|r| - 1]))
    ensures LeadingSpaces(s) + |r| <= |s| && r == s[LeadingSpaces(s)..LeadingSpaces(s) + |r|]
    ensures AllSpaces(s[LeadingSpaces(s) + |r|..])
  {
    var a := LeadingSpaces(s);
    var rest := s[a..];
    var b := TrailingSpaces(rest);
    var r := rest[..|rest| - b];
    assert r != [] ==> r[0] == s[a] && r[|r| - 1] == rest[|rest| - b - 1];
    assert r == s[a..a + |r|];
    assert s[a + |r|..] == rest[|rest| - b..];
    r
  }

  /** Trimming twice is trimming once. */
  lemma TrimIdempotent(s: string)
    ensures Trim(Trim(s)) == Trim(s)
  {
    var r := Trim(s);
    assert LeadingSpaces(r) == 0;
    assert r[..0] == [];
    if r != [] {
      assert TrailingSpaces(r) == 0;
    }
    assert r[0..] == r;
    assert r[..|r| - 0] == r;
  }

  /** How many times c occurs in s. */
  function Occurrences(s: string, c: char): (n: nat)
    ensures n <= |s|
    ensures n == 0 <==> c !in s
  {
    if s == [] then 0
    else (if s[0] == c then 1 else 0) + Occurrences(s[1..], c)
  }

  /** The position of the first c in s. */
  function IndexOf(s: string, c: char): (i: nat)
    requires c in s
    ensures i < |s| && s[i] == c && c !in s[..i]
  {
    if s[0] == c then 0
    else
      var j := IndexOf(s[1..], c);
      assert s[..j + 1] == [s[0]] + s[1..][..j];
      j + 1
  }

  /** The pieces joined back with the separator between them. */
  function Join(parts: seq<string>, sep: char): string
  {
    if parts == [] then []
    else if |parts| == 1 then parts[0]
    else parts[0] + [sep] + Join(parts[1..], sep)
  }

  /** `s.split(sep)`: the maximal separator-free pieces of s, in order; an
      empty string and adjacent separators give empty pieces. */
  function Split(s: string, sep: char): (parts: seq<string>)
    ensures |parts| == Occurrences(s, sep) + 1
    ensures forall p :: p in parts ==> sep !in p
    ensures Join(parts, sep) == s
    decreases |s|
  {
    if sep !in s then [s]
    else
      var i := IndexOf(s, sep);
      var rest := Split(s[i + 1..], sep);
      OccurrencesSplit(s, i, sep);
      assert s == s[..i] + [sep] + s[i + 1..];
      [s[..i]] + rest
  }

  lemma {:induction false} OccurrencesAppend(a: string, b: string, c: char)
    ensures Occurrences(a + b, c) == Occurrences(a, c) + Occurrences(b, c)
  {
    if a != [] {
      assert (a + b)[1..] == a[1..] + b;
      OccurrencesAppend(a[1..], b, c);
    } else {
      assert a + b == b;
    }
  }

  lemma OccurrencesSplit(s: string, i: nat, c: char)
    requires i < |s| && s[i] == c && c !in s[..i]
    ensures Occurrences(s, c) == Occurrences(s[i + 1..], c) + 1
  {
    assert s == s[..i] + ([c] + s[i + 1..]);
    OccurrencesAppend(s[..i], [c] + s[i + 1..], c);
    assert ([c] + s[i + 1..])[1..] == s[i + 1..];
  }

  /** A string with no whitespace at either end is its own trim. */
  lemma TrimNoSpaces(s: string)
    requires s != [] ==> !IsJsSpace(s[0]) && !IsJsSpace(s[|s| - 1])
    ensures Trim(s) == s
  {
    assert LeadingSpaces(s) == 0;
    assert s[0..] == s;
    assert TrailingSpaces(s) == 0;
    assert s[..|s| - 0] == s;
  }

  /** A character that is not the separator and in none of the pieces is
      not in their join. */
  lemma {:induction false} JoinAvoids(parts: seq<string>, sep: char, c: char)
    requires c != sep
    requires forall p :: p in parts ==> c !in p
    ensures c !in Join(parts, sep)
  {
    if |parts| > 1 {
      assert forall p :: p in parts[1..] ==> p in parts;
      JoinAvoids(parts[1..], sep, c);
      assert parts[0] in parts;
    }
  }

  /** A join of non-empty pieces starts with the first piece's first
      character and ends with the last piece's last character. */
  lemma {:induction false} JoinEnds(parts: seq<string>, sep: char)
    requires |parts| >= 1 && forall i :: 0 <= i < |parts| ==> |parts[i]| >= 1
    ensures var s := Join(parts, sep);
      |s| >= 1 && s[0] == parts[0][0] && s[|s| - 1] == parts[|parts| - 1][|parts[|parts| - 1]| - 1]
  {
    if |parts| > 1 {
      JoinEnds(parts[1..], sep);
    }
  }

  /** Split undoes Join on separator-free pieces: the two are inverses. */
  lemma {:induction false} SplitJoin(parts: seq<string>, sep: char)
    requires |parts| >= 1
    requires forall p :: p in parts ==> sep !in p
    ensures Split(Join(parts, sep), sep) == parts
  {
    if |parts| > 1 {
      assert parts[0] in parts;
      SplitCons(parts[0], Join(parts[1..], sep), sep);
      assert forall p :: p in parts[1..] ==> p in parts;
      SplitJoin(parts[1..], sep);
      assert parts == [parts[0]] + parts[1..];
    }
  }

  /** Splitting a separator-free piece, a separator and a rest gives the
      piece, then the split of the rest. */
  lemma SplitCons(p: string, t: string, sep: char)
    requires sep !in p
    ensures Split(p + [sep] + t, sep) == [p] + Split(t, sep)
  {
    var s := p + [sep] + t;
    assert s[..|p|] == p;
    assert s[|p|] == sep;
    IndexOfFirst(s, sep, |p|);
    assert s[|p| + 1..] == t;
  }

  lemma IndexOfFirst(s: string, c: char, i: nat)
    requires i < |s| && s[i] == c && c !in s[..i]
    ensures IndexOf(s, c) == i
  {
  }

  predicate IsDigit(c: char)
  {
    '0' <= c <= '9'
  }

  /** `/^\d+$/.test(s)`: s is one or more ASCII digits, so a date such as
      "2025-01-01" never counts as a number. */
  predicate AllDigits(s: string): (b: bool)
    ensures b ==> |s| >= 1 && '-' !in s && '.' !in s && !IsJsSpace(s[0])
  {
    |s| >= 1 && forall i :: 0 <= i < |s| ==> IsDigit(s[i])
  }

  /** The decimal value of a digit string, as `parseInt(s, 10)` reads it. */
  function DecimalValue(s: string): (n: nat)
    requires forall i :: 0 <= i < |s| ==> IsDigit(s[i])
    ensures n == 0 <==> forall i :: 0 <= i < |s| ==> s[i] == '0'
  {
    if s == [] then 0
    else
      assert IsDigit(s[|s| - 1]);
      DecimalValue(s[..|s| - 1]) * 10 + (s[|s| - 1] as int - '0' as int)
  }

  /** Leading zeros do not change the value. */
  lemma {:induction false} DecimalLeadingZero(s: string)
    requires forall i :: 0 <= i < |s| ==> IsDigit(s[i])
    ensures DecimalValue(['0'] + s) == DecimalValue(s)
  {
    if s != [] {
      assert (['0'] + s)[..|s|] == ['0'] + s[..|s| - 1];
      DecimalLeadingZero(s[..|s| - 1]);
    } else {
      assert (['0'] + s)[..0] == [];
    }
  }

  /** A value of 1 is "1" after any number of leading zeros. */
  lemma {:induction false} DecimalValueOne(s: string)
    requires forall i :: 0 <= i < |s| ==> IsDigit(s[i])
    requires |s| >= 1
    ensures DecimalValue(s) == 1 <==> s[|s| - 1] == '1' && forall i :: 0 <= i < |s| - 1 ==> s[i] == '0'
  {
    var init := s[..|s| - 1];
    if init != [] {
      if forall i :: 0 <= i < |init| ==> init[i] == '0' {
        DecimalZeros(init);
      } else {
        var i :| 0 <= i < |init| && init[i] != '0';
        DecimalNonZero(init, i);
      }
    }
  }

  lemma {:induction false} DecimalZeros(s: string)
    requires forall i :: 0 <= i < |s| ==> s[i] == '0'
    ensures DecimalValue(s) == 0
  {
    if s != [] {
      DecimalZeros(s[..|s| - 1]);
    }
  }

  lemma {:induction false} DecimalNonZero(s: string, i: nat)
    requires forall k :: 0 <= k < |s| ==> IsDigit(s[k])
    requires i < |s| && s[i] != '0'
    ensures DecimalValue(s) >= 1
  {
    if i < |s| - 1 {
      DecimalNonZero(s[..|s| - 1], i);
    }
  }

  /** `Number(v) === 1` for a trimmed cell written as a decimal numeral: an
      optional '+', digits whose value is 1, and optionally a '.' followed
      only by zeros. */
  predicate NumberIsOne(v: string): (on: bool)
    ensures AllDigits(v) ==> (on <==> DecimalValue(v) == 1)
  {
    var u := if |v| > 0 && v[0] == '+' then v[1..] else v;
    var pieces := Split(u, '.');
    assert AllDigits(v) ==> pieces == [v] by {
      if AllDigits(v) {
        assert u == v && '.' !in v;
      }
    }
    && |pieces| <= 2
    && AllDigits(pieces[0]) && DecimalValue(pieces[0]) == 1
    && (|pieces| == 2 ==> forall i :: 0 <= i < |pieces[1]| ==> pieces[1][i] == '0')
  }

  /** The cell texts the pattern files use: "1" is on; "0" and "" are off. */
  lemma NumberIsOneBasic()
    ensures NumberIsOne("1") && !NumberIsOne("0") && !NumberIsOne("")
  {
    assert Split("1", '.') == ["1"];
    assert Split("0", '.') == ["0"];
    assert Split("", '.') == [""];
  }

  /** Leading zeros and a '+' sign still read as 1; "11" and "-1" do not. */
  lemma NumberIsOneVariants()
    ensures NumberIsOne("01") && NumberIsOne("+1")
    ensures !NumberIsOne("11") && !NumberIsOne("-1")
  {
    assert Split("01", '.') == ["01"];
    assert DecimalValue("01") == 1 by { DecimalLeadingZero("1"); assert ['0'] + "1" == "01"; }
    assert "+1"[1..] == "1";
    assert Split("1", '.') == ["1"];
    assert Split("11", '.') == ["11"];
    assert DecimalValue("11") == 11 by { assert "11"[..1] == "1"; }
    assert Split("-1", '.') == ["-1"];
  }

  /** A fraction of zeros still reads as 1. */
  lemma NumberIsOneFraction()
    ensures NumberIsOne("1.0")
  {
    SplitJoin(["1", "0"], '.');
    assert Join(["1", "0"], '.') == "1.0";
  }
}
