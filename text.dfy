/**
 * String helpers: `str(n)` for integers, as the bot formats counts, and a
 * join on a separator with its inverse, the split. The bot builds its
 * change summary with `str.format` and never splits; `Join` and `Split`
 * serve the reader of that summary, which proves it unambiguous.
 */
module Text {

  predicate IsDigit(c: char) {
    '0' <= c <= '9'
  }

  /** A non-empty run of decimal digits. */
  predicate IsDigits(s: string) {
    |s| > 0 && forall i :: 0 <= i < |s| ==> IsDigit(s[i])
  }

  /** Decimal digits as Python's `str` prints a natural number: no leading zero. */
  predicate IsCanonical(s: string) {
    IsDigits(s) && (s[0] == '0' ==> |s| == 1)
  }

  function DigitChar(d: nat): (c: char)
    requires d < 10
    ensures IsDigit(c)
  {
    ('0' as int + d) as char
  }

  function DigitValue(c: char): (d: nat)
    requires IsDigit(c)
    ensures d < 10
  {
    c as int - '0' as int
  }

  /** `str(n)` for a natural number `n`. */
  function NatToString(n: nat): string
    decreases n
  {
    if n < 10 then [DigitChar(n)] else NatToString(n / 10) + [DigitChar(n % 10)]
  }

  /** `str(n)` is canonical decimal, and it is "0" only for zero. */
  lemma {:induction false} NatToStringCanonical(n: nat)
    ensures IsCanonical(NatToString(n))
    ensures NatToString(n) == "0" <==> n == 0
    decreases n
  {
    if n >= 10 {
      NatToStringCanonical(n / 10);
      var p := NatToString(n / 10);
      var s := NatToString(n);
      assert s == p + [DigitChar(n % 10)];
      assert s[0] == p[0];
      forall i | 0 <= i < |s| ensures IsDigit(s[i]) {
        if i < |p| {
          assert s[i] == p[i];
        }
      }
    }
  }

  /** `str(i)` for any integer `i`. */
  function IntToString(i: int): (s: string)
    ensures |s| > 0
    ensures i < 0 <==> s[0] == '-'
  {
    if i < 0 then "-" + NatToString(-i)
    else
      NatToStringCanonical(i);
      NatToString(i)
  }

  /** `int(s)` restricted to a run of digits. */
  function ParseNat(s: string): nat
    requires IsDigits(s)
    decreases |s|
  {
    if |s| == 1 then DigitValue(s[0])
    else 10 * ParseNat(s[..|s| - 1]) + DigitValue(s[|s| - 1])
  }

  lemma {:induction false} ParseNatOfNatToString(n: nat)
    ensures IsDigits(NatToString(n)) && ParseNat(NatToString(n)) == n
    decreases n
  {
    NatToStringCanonical(n);
    if n >= 10 {
      var s := NatToString(n);
      ParseNatOfNatToString(n / 10);
      assert s[..|s| - 1] == NatToString(n / 10);
      assert DigitValue(s[|s| - 1]) == n % 10;
    }
  }

  lemma {:induction false} NatToStringOfParseNat(s: string)
    requires IsCanonical(s)
    ensures NatToString(ParseNat(s)) == s
    decreases |s|
  {
    if |s| > 1 {
      var p := s[..|s| - 1];
      var d := DigitValue(s[|s| - 1]);
      assert IsCanonical(p);
      NatToStringOfParseNat(p);
      var q := ParseNat(p);
      assert p[0] == s[0];
      assert q != 0;
      var n := 10 * q + d;
      assert n / 10 == q && n % 10 == d;
      assert DigitChar(d) == s[|s| - 1];
      assert s == p + [s[|s| - 1]];
    }
  }

  /**
   * `sep.join(ws)`: the pieces of `ws` with one separator between neighbours;
   * the empty list joins to the empty string.
   */
  function Join(ws: seq<string>, sep: char): string
    decreases |ws|
  {
    if |ws| == 0 then ""
    else if |ws| == 1 then ws[0]
    else ws[0] + [sep] + Join(ws[1..], sep)
  }

  /** `s.split(sep)`: the pieces between separators, empty pieces kept. */
  function Split(s: string, sep: char): (r: seq<string>)
    ensures |r| >= 1
    decreases |s|
  {
    if |s| == 0 then [""]
    else
      var rest := Split(s[1..], sep);
      if s[0] == sep then [""] + rest else [[s[0]] + rest[0]] + rest[1..]
  }

  /** No piece contains the separator. */
  predicate Separable(ws: seq<string>, sep: char) {
    forall i :: 0 <= i < |ws| ==> sep !in ws[i]
  }

  lemma {:induction false} SplitPrefix(w: string, t: string, sep: char)
    requires sep !in w
    ensures Split(w + t, sep) == [w + Split(t, sep)[0]] + Split(t, sep)[1..]
    decreases |w|
  {
    if |w| > 0 {
      assert (w + t)[1..] == w[1..] + t;
      assert w[0] in w;
      SplitPrefix(w[1..], t, sep);
      assert [w[0]] + (w[1..] + Split(t, sep)[0]) == w + Split(t, sep)[0];
    } else {
      var r := Split(t, sep);
      assert w + t == t;
      assert w + r[0] == r[0];
      assert r == [r[0]] + r[1..];
    }
  }

  /** Splitting undoes joining when no piece holds the separator. */
  lemma {:induction false} SplitOfJoin(ws: seq<string>, sep: char)
    requires |ws| >= 1 && Separable(ws, sep)
    ensures Split(Join(ws, sep), sep) == ws
    decreases |ws|
  {
    if |ws| == 1 {
      SplitPrefix(ws[0], "", sep);
      assert ws[0] + "" == ws[0];
    } else {
      var rest := Join(ws[1..], sep);
      SplitOfJoin(ws[1..], sep);
      assert Split([sep] + rest, sep) == [""] + Split(rest, sep);
      assert Join(ws, sep) == ws[0] + ([sep] + rest);
      SplitPrefix(ws[0], [sep] + rest, sep);
      assert ws[0] + "" == ws[0];
      assert ws == [ws[0]] + ws[1..];
    }
  }

  /** Joining undoes splitting, whatever the string. */
  lemma {:induction false} JoinOfSplit(s: string, sep: char)
    ensures Join(Split(s, sep), sep) == s
    decreases |s|
  {
    if |s| > 0 {
      var rest := Split(s[1..], sep);
      JoinOfSplit(s[1..], sep);
      if s[0] == sep {
        assert s == [sep] + s[1..];
      } else {
        if |rest| == 1 {
          assert s == [s[0]] + rest[0];
        } else {
          var r := [[s[0]] + rest[0]] + rest[1..];
          assert r[1..] == rest[1..];
          assert Join(rest, sep) == rest[0] + [sep] + Join(rest[1..], sep);
          assert s == [s[0]] + s[1..];
        }
      }
    }
  }

  /** Joining two non-empty lists puts one separator between their joins. */
  lemma {:induction false} JoinAppend(a: seq<string>, b: seq<string>, sep: char)
    requires |a| >= 1 && |b| >= 1
    ensures Join(a + b, sep) == Join(a, sep) + [sep] + Join(b, sep)
    decreases |a|
  {
    if |a| > 1 {
      assert (a + b)[1..] == a[1..] + b;
      JoinAppend(a[1..], b, sep);
    } else {
      assert (a + b)[1..] == b;
    }
  }

  /** A word joined in between two non-empty lists sits between two separators. */
  lemma JoinAround(a: seq<string>, w: string, b: seq<string>, sep: char)
    requires |a| >= 1 && |b| >= 1
    ensures Join(a + [w] + b, sep) == Join(a, sep) + [sep] + w + [sep] + Join(b, sep)
  {
    var ja, jb := Join(a, sep), Join(b, sep);
    assert a + [w] + b == a + ([w] + b);
    JoinAppend([w], b, sep);
    assert Join([w], sep) == w;
    JoinAppend(a, [w] + b, sep);
    assert Join(a + [w] + b, sep) == ja + [sep] + (w + [sep] + jb);
    Regroup(ja, sep, w, jb);
  }

  /** Regrouping a concatenation, kept apart from the `Join` facts in scope above. */
  lemma Regroup(x: string, c: char, w: string, y: string)
    ensures x + [c] + (w + [c] + y) == x + [c] + w + [c] + y
  {
  }

  /** Lists of separator-free pieces stay separator-free when joined around a separator-free word. */
  lemma SeparableAround(a: seq<string>, w: string, b: seq<string>, sep: char)
    requires Separable(a, sep) && sep !in w && Separable(b, sep)
    ensures Separable(a + [w] + b, sep)
  {
    var ws := a + [w] + b;
    forall i | 0 <= i < |ws| ensures sep !in ws[i] {
      if i < |a| {
        assert ws[i] == a[i];
      } else if i > |a| {
        assert ws[i] == b[i - |a| - 1];
      }
    }
  }
}
