/** The line readers of `Phonons.LoadFromQE` applied to the lines
    `Phonons.save_qe` writes.  When the float format and `float()` fit
    together (`Readable`), the info line gives back the species count,
    the atom count and alat, a species line its label and mass, an atom
    line its species and position, and a q line its q point, each
    number as `float()` reads its printed form.
 */
module DynLines {
  import opened Wrappers
  import opened Matrices
  import opened Numerics
  import opened Text
  import opened Species
  import opened DynFormat
  import opened DynRead
  import opened DynWrite

  /** `Readable` at one number and precision. */
  lemma FixedReadable(num: Numbers, x: real, p: nat)
    requires Readable(num)
    ensures IsWord(num.fixed(x, p)) && '\'' !in num.fixed(x, p)
    ensures '(' !in num.fixed(x, p) && ')' !in num.fixed(x, p)
    ensures num.parseFloat(num.fixed(x, p)).Some?
  {
  }

  /** `Readable` at one integer. */
  lemma IntReadable(num: Numbers, n: int)
    requires Readable(num)
    ensures num.parseFloat(ShowInt(n)) == Some(n as real)
  {
  }

  /** The value `float()` reads from `"%.<p>f" % x`. */
  ghost function Printed(num: Numbers, x: real, p: nat): real
    requires Readable(num)
  {
    FixedReadable(num, x, p);
    num.parseFloat(num.fixed(x, p)).value
  }

  // ---------------------------------------------------------------------
  // Helpers about the text operations

  /** `"%d"` prints digits and a sign only. */
  lemma ShowIntChars(n: int)
    ensures forall i :: 0 <= i < |ShowInt(n)| ==> IsDigit(ShowInt(n)[i]) || ShowInt(n)[i] == '-'
  {
    var s := ShowNat(if n < 0 then -n else n);
    assert forall i :: 0 <= i < |s| ==> IsDigit(s[i]);
  }

  /** `int(float(n)) == n` for an integer n. */
  lemma TruncOfInt(n: int)
    ensures Trunc(n as real) == n
  {
    assert (n as real).Floor == n;
    assert (-(n as real)).Floor == -n;
  }

  /** One more field that `float()` accepts in front of fields it accepts. */
  lemma FloatsCons(num: Numbers, f: string, rest: seq<string>, vs: seq<real>)
    requires num.parseFloat(f).Some? && Floats(num, rest) == Ok(vs)
    ensures Floats(num, [f] + rest) == Ok([num.parseFloat(f).value] + vs)
  {
    assert ([f] + rest)[1..] == rest;
  }

  /** A right-aligned field, a space and more text: the field comes first. */
  lemma SplitPaddedSpace(w: string, width: nat, rest: string)
    requires IsWord(w)
    ensures Split(PadLeft(w, width) + " " + rest) == [w] + Split(rest)
  {
    var pad := if |w| < width then Spaces(width - |w|) else "";
    assert PadLeft(w, width) + " " + rest == pad + (w + (" " + rest));
    SplitSpaces(pad, w + (" " + rest));
    SplitWordSpace(w, rest);
  }

  /** A right-aligned field alone is one field. */
  lemma SplitPadded(w: string, width: nat)
    requires IsWord(w)
    ensures Split(PadLeft(w, width)) == [w]
  {
    var pad := if |w| < width then Spaces(width - |w|) else "";
    assert PadLeft(w, width) == pad + (w + "");
    SplitSpaces(pad, w + "");
    SplitWord(w, "");
  }

  /** `replace` character by character across a concatenation. */
  lemma ReplaceConcat(x: string, y: string, a: char, b: char)
    ensures ReplaceChar(x + y, a, b) == ReplaceChar(x, a, b) + ReplaceChar(y, a, b)
  {
  }

  /** `replace` of a character that does not occur changes nothing. */
  lemma ReplaceAbsent(x: string, a: char, b: char)
    requires a !in x
    ensures ReplaceChar(x, a, b) == x
  {
  }

  // ---------------------------------------------------------------------
  // The header lines

  /** The fields save_qe prints on line 2, read in the reader's order. */
  lemma InfoFieldsRead(num: Numbers, nTypes: int, nAtoms: int, alat: real)
    requires Readable(num)
    ensures InfoOfFields(num, InfoFields(num, nTypes, nAtoms, alat))
      == Ok(StructInfo(nTypes, nAtoms, Printed(num, alat * AngstromToBohr, 8) * BohrToAngstrom))
  {
    FixedReadable(num, alat * AngstromToBohr, 8);
    ParseShowInt(0);
    ParseShowInt(nAtoms);
    ParseShowInt(nTypes);
  }

  /** Line 2 as save_qe writes it (Phonons.py:692-693) read by
      Phonons.py:140-149: ibrav is 0, the two counts come back, and alat
      is the printed value in bohr converted back to angstrom. */
  lemma InfoLineReadBack(num: Numbers, nTypes: int, nAtoms: int, alat: real, lines: seq<string>)
    requires Readable(num)
    requires |lines| > 2 && lines[2] == InfoLine(num, nTypes, nAtoms, alat)
    ensures StructInfoOf(num, lines) == Ok(StructInfo(nTypes, nAtoms, Printed(num, alat * AngstromToBohr, 8) * BohrToAngstrom))
  {
    var fs := InfoFields(num, nTypes, nAtoms, alat);
    FixedReadable(num, alat * AngstromToBohr, 8);
    FixedReadable(num, 0.0, 8);
    assert forall k :: 0 <= k < |fs| ==> IsWord(fs[k]);
    SplitJoin(fs);
    assert LineAt(lines, 2) == Ok(lines[2]);
    InfoFieldsRead(num, nTypes, nAtoms, alat);
  }

  /** A species line as save_qe writes it, cut at the quotes: the lead,
      the label with its trailing blank, and the mass with its blanks. */
  lemma SpeciesTextPieces(num: Numbers, k: int, name: Label, mass: real)
    requires Readable(num)
    requires '\'' !in name
    ensures SplitOn(SpeciesText(num, k, name, mass), '\'') ==
      ["\t" + ShowInt(k + 1) + "  ", name + " ", "  " + num.fixed(mass, 8)]
  {
    var pre := "\t" + ShowInt(k + 1) + "  ";
    var tail := "  " + num.fixed(mass, 8);
    FixedReadable(num, mass, 8);
    ShowIntChars(k + 1);
    assert forall i :: 0 <= i < |pre| ==> pre[i] != '\'';
    assert SpeciesText(num, k, name, mass) == pre + ['\''] + ((name + " ") + ['\''] + tail);
    SplitOnFirst(pre, '\'', (name + " ") + ['\''] + tail);
    SplitOnFirst(name + " ", '\'', tail);
    SplitOnAbsent(tail, '\'');
  }

  /** A species line cut into those three pieces gives back the label and
      the parsed mass. */
  lemma SpeciesOfPieces(num: Numbers, line: string, pre: string, name: string, fx: string, m: real)
    requires IsWord(name) && IsWord(fx) && num.parseFloat(fx) == Some(m)
    requires SplitOn(line, '\'') == [pre, name + " ", "  " + fx]
    ensures SpeciesLine(num, line) == Ok(SpeciesEntry(name, m))
  {
    StripPadded("", name, " ");
    assert "" + name + " " == name + " ";
    StripPadded("  ", fx, "");
    assert "  " + fx + "" == "  " + fx;
  }

  /** A species line as save_qe writes it (Phonons.py:703) read by
      Phonons.py:159-163: the label between the quotes and the mass
      after them come back, for a label without whitespace or quotes. */
  lemma SpeciesLineReadBack(num: Numbers, k: int, name: Label, mass: real)
    requires Readable(num)
    requires IsWord(name) && '\'' !in name
    ensures SpeciesLine(num, SpeciesText(num, k, name, mass)) == Ok(SpeciesEntry(name, Printed(num, mass, 8)))
  {
    FixedReadable(num, mass, 8);
    SpeciesTextPieces(num, k, name, mass);
    SpeciesOfPieces(num, SpeciesText(num, k, name, mass), "\t" + ShowInt(k + 1) + "  ", name,
                    num.fixed(mass, 8), Printed(num, mass, 8));
  }


  /** Right-aligned fields joined by single spaces are split back into
      the fields. */
  lemma {:induction false} SplitJoinPadded(ps: seq<string>, ws: seq<string>, widths: seq<nat>)
    requires |ps| == |ws| == |widths|
    requires forall k :: 0 <= k < |ws| ==> IsWord(ws[k]) && ps[k] == PadLeft(ws[k], widths[k])
    ensures Split(Join(ps, " ")) == ws
  {
    if |ps| == 1 {
      SplitPadded(ws[0], widths[0]);
    } else if |ps| > 1 {
      var rest := Join(ps[1..], " ");
      assert Join(ps, " ") == ps[0] + " " + rest;
      SplitPaddedSpace(ws[0], widths[0], rest);
      SplitJoinPadded(ps[1..], ws[1..], widths[1..]);
      assert ws == [ws[0]] + ws[1..];
    }
  }

  /** The fields of an atom line: two integers and three floats. */
  lemma AtomTextFields(num: Numbers, i: int, itau: int, coord: Vec, alat: real)
    requires Readable(num)
    ensures Split(AtomText(num, i, itau, coord, alat)) ==
      [ShowInt(i + 1), ShowInt(itau), num.fixed(Over(VAt(coord, 0), alat), 10),
       num.fixed(Over(VAt(coord, 1), alat), 10), num.fixed(Over(VAt(coord, 2), alat), 10)]
  {
    var cx, cy, cz := Over(VAt(coord, 0), alat), Over(VAt(coord, 1), alat), Over(VAt(coord, 2), alat);
    FixedReadable(num, cx, 10);
    FixedReadable(num, cy, 10);
    FixedReadable(num, cz, 10);
    var ws := [ShowInt(i + 1), ShowInt(itau), num.fixed(cx, 10), num.fixed(cy, 10), num.fixed(cz, 10)];
    SplitJoinPadded([I5(i + 1), I5(itau), F15(num, cx), F15(num, cy), F15(num, cz)], ws, [5, 5, 15, 15, 15]);
  }

  /** `float()` of those fields. */
  lemma AtomFieldValues(num: Numbers, i: int, itau: int, x: real, y: real, z: real)
    requires Readable(num)
    ensures Floats(num, [ShowInt(i + 1), ShowInt(itau), num.fixed(x, 10), num.fixed(y, 10), num.fixed(z, 10)]) ==
      Ok([(i + 1) as real, itau as real, Printed(num, x, 10), Printed(num, y, 10), Printed(num, z, 10)])
  {
    var fx, fy, fz := num.fixed(x, 10), num.fixed(y, 10), num.fixed(z, 10);
    var px, py, pz := Printed(num, x, 10), Printed(num, y, 10), Printed(num, z, 10);
    FixedReadable(num, x, 10);
    FixedReadable(num, y, 10);
    FixedReadable(num, z, 10);
    IntReadable(num, itau);
    IntReadable(num, i + 1);
    assert Floats(num, []) == Ok([]);
    FloatsCons(num, fz, [], []);
    assert Floats(num, [fz]) == Ok([pz]) by { assert [fz] + [] == [fz]; assert [pz] + [] == [pz]; }
    FloatsCons(num, fy, [fz], [pz]);
    assert Floats(num, [fy, fz]) == Ok([py, pz]) by { assert [fy] + [fz] == [fy, fz]; assert [py] + [pz] == [py, pz]; }
    FloatsCons(num, fx, [fy, fz], [py, pz]);
    assert Floats(num, [fx, fy, fz]) == Ok([px, py, pz]) by {
      assert [fx] + [fy, fz] == [fx, fy, fz];
      assert [px] + [py, pz] == [px, py, pz];
    }
    FloatsCons(num, ShowInt(itau), [fx, fy, fz], [px, py, pz]);
    assert Floats(num, [ShowInt(itau), fx, fy, fz]) == Ok([itau as real, px, py, pz]) by {
      assert [ShowInt(itau)] + [fx, fy, fz] == [ShowInt(itau), fx, fy, fz];
      assert [itau as real] + [px, py, pz] == [itau as real, px, py, pz];
    }
    FloatsCons(num, ShowInt(i + 1), [ShowInt(itau), fx, fy, fz], [itau as real, px, py, pz]);
    assert [ShowInt(i + 1)] + [ShowInt(itau), fx, fy, fz] == [ShowInt(i + 1), ShowInt(itau), fx, fy, fz];
    assert [(i + 1) as real] + [itau as real, px, py, pz] == [(i + 1) as real, itau as real, px, py, pz];
  }

  /** The numbers of a written atom line, once read. */
  lemma AtomValuesRead(first: real, itau: int, x: real, y: real, z: real, names: map<int, string>, alat': real)
    ensures AtomOfValues([first, itau as real, x, y, z], names, alat') ==
      if itau in names then Ok((names[itau], ScaledRow([x, y, z], alat').value)) else Err(KeyError)
  {
    TruncOfInt(itau);
    assert [first, itau as real, x, y, z][2..] == [x, y, z];
  }

  /** `float()` of the fields of a written atom line. */
  lemma AtomTextValues(num: Numbers, i: int, itau: int, coord: Vec, alat: real)
    requires Readable(num)
    ensures Floats(num, Split(AtomText(num, i, itau, coord, alat))) ==
      Ok([(i + 1) as real, itau as real, Printed(num, Over(VAt(coord, 0), alat), 10),
          Printed(num, Over(VAt(coord, 1), alat), 10), Printed(num, Over(VAt(coord, 2), alat), 10)])
  {
    AtomTextFields(num, i, itau, coord, alat);
    AtomFieldValues(num, i, itau, Over(VAt(coord, 0), alat), Over(VAt(coord, 1), alat), Over(VAt(coord, 2), alat));
  }

  /** An atom line whose fields `float()` reads as the given values. */
  lemma AtomLineOfValues(num: Numbers, line: string, first: real, itau: int, x: real, y: real, z: real,
                         names: map<int, string>, alat': real)
    requires Floats(num, Split(line)) == Ok([first, itau as real, x, y, z])
    ensures AtomLine(num, line, names, alat') ==
      if itau in names then Ok((names[itau], ScaledRow([x, y, z], alat').value)) else Err(KeyError)
  {
    AtomValuesRead(first, itau, x, y, z, names, alat');
  }

  /** An atom line as save_qe writes it (Phonons.py:706-711) read by
      Phonons.py:176-181: the species number selects the label, and the
      three printed coordinates (in units of alat) come back, scaled by
      the alat the reader uses. */
  lemma AtomLineReadBack(num: Numbers, i: int, itau: int, coord: Vec, alat: real, names: map<int, string>, alat': real)
    requires Readable(num)
    ensures
      var x := Printed(num, Over(VAt(coord, 0), alat), 10);
      var y := Printed(num, Over(VAt(coord, 1), alat), 10);
      var z := Printed(num, Over(VAt(coord, 2), alat), 10);
      AtomLine(num, AtomText(num, i, itau, coord, alat), names, alat') ==
        if itau in names then Ok((names[itau], ScaledRow([x, y, z], alat').value)) else Err(KeyError)
  {
    AtomTextValues(num, i, itau, coord, alat);
    AtomLineOfValues(num, AtomText(num, i, itau, coord, alat), (i + 1) as real, itau,
                     Printed(num, Over(VAt(coord, 0), alat), 10), Printed(num, Over(VAt(coord, 1), alat), 10),
                     Printed(num, Over(VAt(coord, 2), alat), 10), names, alat');
  }

  // ---------------------------------------------------------------------
  // The q lines

  /** The text between the parentheses of a written q line. */
  function QMiddle(a: string, b: string, c: string): string
  {
    "    " + (a + ("   " + (b + ("   " + (c + " ")))))
  }

  /** After `replace("(", ")")` a written q line is its lead, the middle
      text and the closing parenthesis, separated by ')'. */
  lemma QTextReplaced(num: Numbers, q: Vec)
    requires Readable(num) && |q| >= 3
    ensures ReplaceChar(QText(num, q).value, '(', ')') ==
      "     q = " + [')'] + (QMiddle(num.fixed(q[0], 9), num.fixed(q[1], 9), num.fixed(q[2], 9)) + [')'] + "")
  {
    FixedReadable(num, q[0], 9);
    FixedReadable(num, q[1], 9);
    FixedReadable(num, q[2], 9);
    var pre := "     q = ";
    var mid := QMiddle(num.fixed(q[0], 9), num.fixed(q[1], 9), num.fixed(q[2], 9));
    assert QText(num, q).value == pre + "(" + mid + ")";
    ReplaceConcat(pre + "(" + mid, ")", '(', ')');
    ReplaceConcat(pre + "(", mid, '(', ')');
    ReplaceConcat(pre, "(", '(', ')');
    ReplaceAbsent(pre, '(', ')');
    ReplaceAbsent(mid, '(', ')');
    ReplaceAbsent(")", '(', ')');
    assert ReplaceChar("(", '(', ')') == ")";
  }

  /** Splitting that on ')' puts the middle text second. */
  lemma QPieces(pre: string, mid: string)
    requires ')' !in pre && ')' !in mid
    ensures SplitOn(pre + [')'] + (mid + [')'] + ""), ')') == [pre, mid, ""]
  {
    SplitOnFirst(pre, ')', mid + [')'] + "");
    SplitOnFirst(mid, ')', "");
  }

  /** Whitespace, a word, then nothing or whitespace: the word is the
      first field. */
  lemma LeadWord(pad: string, w: string, rest: string)
    requires forall i :: 0 <= i < |pad| ==> IsSpace(pad[i])
    requires IsWord(w) && (|rest| == 0 || IsSpace(rest[0]))
    ensures Split(pad + (w + rest)) == [w] + Split(rest)
  {
    SplitSpaces(pad, w + rest);
    SplitWord(w, rest);
  }

  /** Blanks alone split into no fields. */
  lemma BlankSplit(e: string)
    requires forall i :: 0 <= i < |e| ==> IsSpace(e[i])
    ensures Split(e) == []
  {
  }

  /** A word led by blanks in front of text that splits into `ws`. */
  lemma LeadWordOn(pad: string, w: string, rest: string, ws: seq<string>)
    requires forall i :: 0 <= i < |pad| ==> IsSpace(pad[i])
    requires IsWord(w) && |rest| > 0 && IsSpace(rest[0]) && Split(rest) == ws
    ensures Split(pad + (w + rest)) == [w] + ws
  {
    LeadWord(pad, w, rest);
  }

  /** Each word led by its own blanks, then the trailing blanks. */
  function Padded(pads: seq<string>, ws: seq<string>, tail: string): string
    requires |pads| == |ws|
  {
    if |ws| == 0 then tail else pads[0] + (ws[0] + Padded(pads[1..], ws[1..], tail))
  }

  /** Only whitespace. */
  predicate Blank(s: string)
  {
    forall i :: 0 <= i < |s| ==> IsSpace(s[i])
  }

  /** The text after the first word starts with a blank. */
  lemma PaddedStartsBlank(pads: seq<string>, ws: seq<string>, tail: string)
    requires |pads| == |ws| && Blank(tail) && |tail| > 0
    requires |pads| > 0 ==> Blank(pads[0]) && |pads[0]| > 0
    ensures |Padded(pads, ws, tail)| > 0 && IsSpace(Padded(pads, ws, tail)[0])
  {
    if |ws| > 0 {
      assert Padded(pads, ws, tail)[0] == pads[0][0];
    }
  }

  /** Text that is a first word led by blanks, in front of a rest that
      starts with a blank, splits into that word and the rest's words. */
  lemma FirstWordOn(p: string, ws: seq<string>, rest: string, whole: string)
    requires |ws| > 0 && Blank(p) && IsWord(ws[0]) && |rest| > 0 && IsSpace(rest[0])
    requires whole == p + (ws[0] + rest) && Split(rest) == ws[1..]
    ensures Split(whole) == ws
  {
    LeadWordOn(p, ws[0], rest, ws[1..]);
    assert ws == [ws[0]] + ws[1..];
  }

  /** One step of SplitLedWords: the first word in front of the rest. */
  lemma LedStep(pads: seq<string>, ws: seq<string>, tail: string)
    requires |pads| == |ws| > 0 && Blank(pads[0]) && IsWord(ws[0]) && Blank(tail) && |tail| > 0
    requires |pads| > 1 ==> Blank(pads[1]) && |pads[1]| > 0
    requires Split(Padded(pads[1..], ws[1..], tail)) == ws[1..]
    ensures Split(Padded(pads, ws, tail)) == ws
  {
    PaddedStartsBlank(pads[1..], ws[1..], tail);
    FirstWordOn(pads[0], ws, Padded(pads[1..], ws[1..], tail), Padded(pads, ws, tail));
  }

  /** Words led by blanks, and followed by blanks, split back into the words. */
  lemma {:induction false} SplitLedWords(pads: seq<string>, ws: seq<string>, tail: string)
    requires |pads| == |ws|
    requires forall k :: 0 <= k < |pads| ==> Blank(pads[k])
    requires forall k :: 1 <= k < |pads| ==> |pads[k]| > 0
    requires forall k :: 0 <= k < |ws| ==> IsWord(ws[k])
    requires Blank(tail) && |tail| > 0
    ensures Split(Padded(pads, ws, tail)) == ws
  {
    if |ws| == 0 {
      BlankSplit(tail);
    } else {
      SplitLedWords(pads[1..], ws[1..], tail);
      LedStep(pads, ws, tail);
    }
  }

  /** The middle text holds the three numbers as fields. */
  lemma QMiddleFields(a: string, b: string, c: string)
    requires IsWord(a) && IsWord(b) && IsWord(c)
    ensures Split(QMiddle(a, b, c)) == [a, b, c]
  {
    var pads := ["    ", "   ", "   "];
    assert Padded(pads[2..], [a, b, c][2..], " ") == "   " + (c + " ") by {
      assert pads[2..][1..] == [] && [a, b, c][2..][1..] == [];
    }
    assert Padded(pads[1..], [a, b, c][1..], " ") == "   " + (b + ("   " + (c + " "))) by {
      assert pads[1..][1..] == pads[2..] && [a, b, c][1..][1..] == [a, b, c][2..];
    }
    assert QMiddle(a, b, c) == Padded(pads, [a, b, c], " ");
    SplitLedWords(pads, [a, b, c], " ");
  }

  /** `float()` of three printed numbers. */
  lemma ThreeValues(num: Numbers, x: real, y: real, z: real, p: nat)
    requires Readable(num)
    ensures Floats(num, [num.fixed(x, p), num.fixed(y, p), num.fixed(z, p)]) ==
      Ok([Printed(num, x, p), Printed(num, y, p), Printed(num, z, p)])
  {
    var fx, fy, fz := num.fixed(x, p), num.fixed(y, p), num.fixed(z, p);
    var px, py, pz := Printed(num, x, p), Printed(num, y, p), Printed(num, z, p);
    FixedReadable(num, x, p);
    FixedReadable(num, y, p);
    FixedReadable(num, z, p);
    assert Floats(num, []) == Ok([]);
    FloatsCons(num, fz, [], []);
    assert Floats(num, [fz]) == Ok([pz]) by { assert [fz] + [] == [fz]; assert [pz] + [] == [pz]; }
    FloatsCons(num, fy, [fz], [pz]);
    assert Floats(num, [fy, fz]) == Ok([py, pz]) by { assert [fy] + [fz] == [fy, fz]; assert [py] + [pz] == [py, pz]; }
    FloatsCons(num, fx, [fy, fz], [py, pz]);
    assert [fx] + [fy, fz] == [fx, fy, fz];
    assert [px] + [py, pz] == [px, py, pz];
  }

  /** A line whose middle text `float()` reads as the given values. */
  lemma QPointOfMiddle(num: Numbers, line: string, mid: string, x: real, y: real, z: real)
    requires |SplitOn(ReplaceChar(line, '(', ')'), ')')| >= 2
    requires SplitOn(ReplaceChar(line, '(', ')'), ')')[1] == mid
    requires Floats(num, Split(mid)) == Ok([x, y, z])
    ensures QPointOf(num, line) == Ok([x, y, z])
  {
  }

  /** A written q line cut at its parentheses: the middle text is second. */
  lemma QLinePieces(num: Numbers, q: Vec)
    requires Readable(num) && |q| >= 3
    ensures var parts := SplitOn(ReplaceChar(QText(num, q).value, '(', ')'), ')');
      |parts| >= 2 && parts[1] == QMiddle(num.fixed(q[0], 9), num.fixed(q[1], 9), num.fixed(q[2], 9))
  {
    var mid := QMiddle(num.fixed(q[0], 9), num.fixed(q[1], 9), num.fixed(q[2], 9));
    FixedReadable(num, q[0], 9);
    FixedReadable(num, q[1], 9);
    FixedReadable(num, q[2], 9);
    QTextReplaced(num, q);
    QPieces("     q = ", mid);
  }

  /** The middle text of a written q line reads as the three printed
      components. */
  lemma QMiddleValues(num: Numbers, x: real, y: real, z: real)
    requires Readable(num)
    ensures Floats(num, Split(QMiddle(num.fixed(x, 9), num.fixed(y, 9), num.fixed(z, 9))))
      == Ok([Printed(num, x, 9), Printed(num, y, 9), Printed(num, z, 9)])
  {
    FixedReadable(num, x, 9);
    FixedReadable(num, y, 9);
    FixedReadable(num, z, 9);
    QMiddleFields(num.fixed(x, 9), num.fixed(y, 9), num.fixed(z, 9));
    ThreeValues(num, x, y, z, 9);
  }

  /** A q line as save_qe writes it (Phonons.py:726-727, 750-751) read by
      Phonons.py:210: the three printed components come back. */
  lemma QPointReadBack(num: Numbers, q: Vec)
    requires Readable(num) && |q| >= 3
    ensures QPointOf(num, QText(num, q).value) == Ok([Printed(num, q[0], 9), Printed(num, q[1], 9), Printed(num, q[2], 9)])
  {
    QLinePieces(num, q);
    QMiddleValues(num, q[0], q[1], q[2]);
    QPointOfMiddle(num, QText(num, q).value, QMiddle(num.fixed(q[0], 9), num.fixed(q[1], 9), num.fixed(q[2], 9)),
                   Printed(num, q[0], 9), Printed(num, q[1], 9), Printed(num, q[2], 9));
  }
}
