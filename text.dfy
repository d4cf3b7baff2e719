/** The Python string operations the dynamical-matrix reader and the
    writers rely on: `strip()`, `split()` on whitespace, `split(c)` on a
    character, `replace`, substring tests, and the `%d` / `int()` pair.
 */
module Text {
  import opened Wrappers
  import opened SeqFacts

  /** The whitespace `str.split()` and `str.strip()` remove. */
  predicate IsSpace(c: char)
  {
    c == ' ' || c == '\t' || c == '\n' || c == '\r' || c == '\U{0B}' || c == '\U{0C}'
  }

  predicate NoSpace(w: string)
  {
    forall i :: 0 <= i < |w| ==> !IsSpace(w[i])
  }

  /** A field `split()` can return: non-empty, without whitespace. */
  predicate IsWord(w: string)
  {
    |w| > 0 && NoSpace(w)
  }

  function Spaces(k: nat): (s: string)
    ensures |s| == k && forall i :: 0 <= i < k ==> s[i] == ' '
  {
    seq(k, _ => ' ')
  }

  /** `s.lstrip()` */
  function TrimLeft(s: string): (t: string)
    ensures |t| <= |s| && t == s[|s| - |t|..]
    ensures |t| > 0 ==> !IsSpace(t[0])
    ensures forall i :: 0 <= i < |s| - |t| ==> IsSpace(s[i])
  {
    if |s| > 0 && IsSpace(s[0]) then TrimLeft(s[1..]) else s
  }

  /** `s.rstrip()` */
  function TrimRight(s: string): (t: string)
    ensures |t| <= |s| && t == s[..|t|]
    ensures |t| > 0 ==> !IsSpace(t[|t| - 1])
    ensures forall i :: |t| <= i < |s| ==> IsSpace(s[i])
  {
    if |s| > 0 && IsSpace(s[|s| - 1]) then TrimRight(s[..|s| - 1]) else s
  }

  /** `s.strip()` */
  function Strip(s: string): string
  {
    TrimRight(TrimLeft(s))
  }

  /** The length of the run of non-whitespace characters s starts with. */
  function WordLength(s: string): (k: nat)
    ensures k <= |s| && NoSpace(s[..k])
    ensures k < |s| ==> IsSpace(s[k])
  {
    if |s| > 0 && !IsSpace(s[0]) then 1 + WordLength(s[1..]) else 0
  }

  /** `s.split()`: the maximal runs of non-whitespace characters, in order. */
  function Split(s: string): (ws: seq<string>)
    ensures forall k :: 0 <= k < |ws| ==> IsWord(ws[k])
    decreases |s|
  {
    var t := TrimLeft(s);
    if |t| == 0 then []
    else
      var k := WordLength(t);
      [t[..k]] + Split(t[k..])
  }

  /** `s.split(c)` for a one-character separator: always at least one piece. */
  function SplitOn(s: string, c: char): (ps: seq<string>)
    ensures |ps| >= 1
  {
    if |s| == 0 then [""]
    else if s[0] == c then [""] + SplitOn(s[1..], c)
    else
      var rest := SplitOn(s[1..], c);
      [[s[0]] + rest[0]] + rest[1..]
  }

  /** `s.replace(a, b)` for single characters. */
  function ReplaceChar(s: string, a: char, b: char): (t: string)
    ensures |t| == |s|
  {
    seq(|s|, i requires 0 <= i < |s| => if s[i] == a then b else s[i])
  }

  /** `p in s` for strings. */
  predicate Contains(s: string, p: string)
  {
    exists i :: 0 <= i <= |s| && OccursAt(s, p, i)
  }

  /** p occurs in s starting at position i. */
  predicate OccursAt(s: string, p: string, i: int)
  {
    0 <= i && i + |p| <= |s| && s[i..i + |p|] == p
  }

  /** `sep.join(ws)` */
  function Join(ws: seq<string>, sep: string): string
  {
    if |ws| == 0 then ""
    else if |ws| == 1 then ws[0]
    else ws[0] + sep + Join(ws[1..], sep)
  }

  /** `"%*s" % (w, s)`: right-aligned in a field of width w. */
  function PadLeft(s: string, w: nat): (t: string)
    ensures |s| < w ==> t == Spaces(w - |s|) + s
    ensures |s| >= w ==> t == s
  {
    if |s| < w then Spaces(w - |s|) + s else s
  }

  // ---------------------------------------------------------------------
  // Integers: "%d" and int()

  predicate IsDigit(c: char)
  {
    '0' <= c <= '9'
  }

  predicate AllDigits(s: string)
  {
    forall i :: 0 <= i < |s| ==> IsDigit(s[i])
  }

  function DigitChar(d: nat): (c: char)
    requires d < 10
    ensures IsDigit(c) && c as int - '0' as int == d
  {
    ('0' as int + d) as char
  }

  /** Decimal digits of n, most significant first. */
  function ShowNat(n: nat): (s: string)
    ensures |s| > 0 && AllDigits(s)
  {
    if n < 10 then [DigitChar(n)] else ShowNat(n / 10) + [DigitChar(n % 10)]
  }

  /** `"%d" % n` and `str(n)`. */
  function ShowInt(n: int): (s: string)
    ensures IsWord(s)
  {
    if n < 0 then "-" + ShowNat(-n) else ShowNat(n)
  }

  /** The value of a string of decimal digits. */
  function DigitsValue(s: string): nat
    requires AllDigits(s)
  {
    if |s| == 0 then 0 else 10 * DigitsValue(s[..|s| - 1]) + (s[|s| - 1] as int - '0' as int)
  }

  /** `int(s)` for a field without surrounding whitespace: an optional sign
      followed by at least one decimal digit, anything else a ValueError. */
  function ParseInt(s: string): Option<int>
  {
    if |s| > 0 && (s[0] == '-' || s[0] == '+') then
      if |s| > 1 && AllDigits(s[1..]) then
        Some(if s[0] == '-' then -(DigitsValue(s[1..]) as int) else DigitsValue(s[1..]))
      else None
    else if |s| > 0 && AllDigits(s) then Some(DigitsValue(s))
    else None
  }

  lemma {:induction false} DigitsOfShowNat(n: nat)
    ensures DigitsValue(ShowNat(n)) == n
  {
    if n >= 10 {
      DigitsOfShowNat(n / 10);
      var s := ShowNat(n);
      assert s[..|s| - 1] == ShowNat(n / 10);
    }
  }

  /** `int(s)` of a string of digits is its value. */
  lemma {:induction false} ParseDigits(s: string)
    requires |s| > 0 && AllDigits(s)
    ensures ParseInt(s) == Some(DigitsValue(s)) && ParseInt("-" + s) == Some(-(DigitsValue(s) as int))
  {
    assert IsDigit(s[0]);
    var t := "-" + s;
    assert t[0] == '-' && t[1..] == s;
  }

  /** `int("%d" % n) == n`. */
  lemma {:induction false} ParseShowInt(n: int)
    ensures ParseInt(ShowInt(n)) == Some(n)
  {
    var m: nat := if n < 0 then -n else n;
    var s := ShowNat(m);
    DigitsOfShowNat(m);
    ParseDigits(s);
    assert ShowInt(n) == if n < 0 then "-" + s else s;
  }

  /** Numbers below 10^4 fit a `%5d` field with room for a leading space. */
  lemma {:induction false} ShowNatShort(n: nat)
    ensures n < 10000 ==> |ShowNat(n)| <= 4
    ensures n < 1000 ==> |ShowNat(n)| <= 3
    ensures n < 100 ==> |ShowNat(n)| <= 2
    ensures n < 10 ==> |ShowNat(n)| == 1
  {
    if n >= 10 {
      ShowNatShort(n / 10);
    }
  }

  // ---------------------------------------------------------------------
  // How split() takes strings apart

  lemma {:induction false} TrimLeftSpaces(p: string, s: string)
    requires forall i :: 0 <= i < |p| ==> IsSpace(p[i])
    ensures TrimLeft(p + s) == TrimLeft(s)
  {
    if |p| > 0 {
      var ps := p + s;
      assert ps[0] == p[0] && IsSpace(ps[0]);
      assert TrimLeft(ps) == TrimLeft(ps[1..]);
      assert ps[1..] == p[1..] + s;
      TrimLeftSpaces(p[1..], s);
    } else {
      assert p + s == s;
    }
  }

  /** Leading whitespace does not change the fields. */
  lemma SplitSpaces(p: string, s: string)
    requires forall i :: 0 <= i < |p| ==> IsSpace(p[i])
    ensures Split(p + s) == Split(s)
  {
    TrimLeftSpaces(p, s);
  }

  lemma {:induction false} WordLengthOfWord(w: string, s: string)
    requires NoSpace(w)
    requires |s| == 0 || IsSpace(s[0])
    ensures WordLength(w + s) == |w|
  {
    if |w| > 0 {
      assert (w + s)[1..] == w[1..] + s;
      WordLengthOfWord(w[1..], s);
    }
  }

  /** A word followed by nothing or by whitespace is the first field. */
  lemma SplitWord(w: string, s: string)
    requires IsWord(w)
    requires |s| == 0 || IsSpace(s[0])
    ensures Split(w + s) == [w] + Split(s)
  {
    WordLengthOfWord(w, s);
    var t := w + s;
    assert TrimLeft(t) == t;
    assert t[..|w|] == w && t[|w|..] == s;
  }

  /** A word, a space and more: the word is the first field. */
  lemma {:induction false} SplitWordSpace(w: string, rest: string)
    requires IsWord(w)
    ensures Split(w + (" " + rest)) == [w] + Split(rest)
  {
    SplitWord(w, " " + rest);
    SplitSpaces(" ", rest);
  }

  /** Fields joined by single spaces are split back into the same fields. */
  lemma {:induction false} SplitJoin(ws: seq<string>)
    requires forall k :: 0 <= k < |ws| ==> IsWord(ws[k])
    ensures Split(Join(ws, " ")) == ws
  {
    if |ws| == 1 {
      SplitWord(ws[0], "");
      assert ws[0] + "" == ws[0];
    } else if |ws| > 1 {
      var rest := Join(ws[1..], " ");
      assert Join(ws, " ") == ws[0] + " " + rest;
      Associative(ws[0], " ", rest);
      SplitWordSpace(ws[0], rest);
      SplitJoin(ws[1..]);
      HeadTail(ws);
    }
  }

  /** Two right-aligned fields `"%5d%5d"` of at most four characters each
      come back as two fields. */
  lemma SplitTwoPadded(a: string, b: string)
    requires IsWord(a) && IsWord(b) && |a| <= 4 && |b| <= 4
    ensures Split(PadLeft(a, 5) + PadLeft(b, 5)) == [a, b]
  {
    var pa, pb := Spaces(5 - |a|), Spaces(5 - |b|);
    var tail := pb + b;
    assert PadLeft(a, 5) + PadLeft(b, 5) == pa + (a + tail);
    assert Split(b) == [b] by {
      SplitWord(b, "");
      assert b + "" == b;
    }
    SplitSpaces(pb, b);
    assert tail[0] == ' ';
    SplitWord(a, tail);
    SplitSpaces(pa, a + tail);
  }

  // ---------------------------------------------------------------------
  // How strip() and split(c) take strings apart

  lemma {:induction false} TrimRightWord(w: string, q: string)
    requires |w| > 0 && !IsSpace(w[|w| - 1])
    requires forall i :: 0 <= i < |q| ==> IsSpace(q[i])
    ensures TrimRight(w + q) == w
  {
    if |q| > 0 {
      assert (w + q)[..|w + q| - 1] == w + q[..|q| - 1];
      TrimRightWord(w, q[..|q| - 1]);
    } else {
      assert w + q == w;
    }
  }

  /** Whitespace around a word without surrounding whitespace is stripped. */
  lemma StripPadded(p: string, w: string, q: string)
    requires forall i :: 0 <= i < |p| ==> IsSpace(p[i])
    requires forall i :: 0 <= i < |q| ==> IsSpace(q[i])
    requires |w| > 0 && !IsSpace(w[0]) && !IsSpace(w[|w| - 1])
    ensures Strip(p + w + q) == w
  {
    TrimLeftSpaces(p, w + q);
    assert p + w + q == p + (w + q);
    assert TrimLeft(w + q) == w + q;
    TrimRightWord(w, q);
  }

  /** Splitting on a character that does not occur gives the whole string. */
  lemma {:induction false} SplitOnAbsent(s: string, c: char)
    requires forall i :: 0 <= i < |s| ==> s[i] != c
    ensures SplitOn(s, c) == [s]
  {
    if |s| > 0 {
      SplitOnAbsent(s[1..], c);
      assert [s[0]] + s[1..] == s;
    }
  }

  /** The pieces around the separator c, when neither contains c. */
  lemma {:induction false} SplitOnFirst(a: string, c: char, b: string)
    requires forall i :: 0 <= i < |a| ==> a[i] != c
    ensures SplitOn(a + [c] + b, c) == [a] + SplitOn(b, c)
  {
    if |a| == 0 {
      assert a + [c] + b == [c] + b;
      assert ([c] + b)[1..] == b;
    } else {
      SplitOnFirst(a[1..], c, b);
      assert (a + [c] + b)[1..] == a[1..] + [c] + b;
      assert [a[0]] + a[1..] == a;
    }
  }
}
