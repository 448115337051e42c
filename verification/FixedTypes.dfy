/** When a second pass of the Move type canonicaliser changes nothing
    (exchange-dashboard/src/format.ts, `canonicalizeType`).

    Words between two delimiters are joined in the output, so the second pass
    reads each such run as one atom.  It changes nothing exactly when every
    joined run is printed as it stands. */
module FixedTypes {
  import opened Wrappers
  import opened Chars
  import opened HexNumbers
  import opened MoveTypes

  /** What a finished atom prints as; nothing for none. */
  function Printed(atom: string): string {
    if atom == "" || Flushed(atom).None? then "" else Flushed(atom).value
  }

  /** A run that is printed as it stands. */
  predicate Fixed(run: string) { run == "" || Flushed(run) == Some(run) }

  /** Every run of the text, its printed words joined, is printed as it stands.  `atom` is the word being
      read and `run` the printed words before it in its run. */
  predicate Harmless(s: string, atom: string, run: string) {
    if s == "" then Fixed(run + Printed(atom))
    else if Plain(s[0]) then Harmless(s[1..], atom + [s[0]], run)
    else if Delimiter(s[0]) then Fixed(run + Printed(atom)) && Harmless(s[1..], "", "")
    else Harmless(s[1..], "", run + Printed(atom))
  }

  // ----- printed words -----

  lemma PrintedPath(a: Atom)
    requires WellFormedAtom(a)
    ensures AllPlain(PrintAtom(a)) && Flushed(PrintAtom(a)) == Some(PrintAtom(a)) && PrintAtom(a) != ""
  {
    hide ParseAtom, HasColons, AllPlain, AllHex, Ident, Address, AtomText;
    AddressValid(a.hex);
    AddressFixed(Address(a.hex));
    var c := Atom(Address(a.hex), a.mod, a.name);
    PathText(c, true);
    PrintedAsText(a, c);
  }

  lemma PrintedAsText(a: Atom, c: Atom)
    requires c == Atom(Address(a.hex), a.mod, a.name) && Address(c.hex) == c.hex
    ensures PrintAtom(a) == HeadText(Path(true, c)) && PrintAtom(c) == PrintAtom(a)
  {
  }

  lemma ParsedIsWellFormed(s: string)
    requires ParseAtom(s).Some?
    ensures WellFormedAtom(ParseAtom(s).value)
  {
  }

  /** What a word prints as is one word and prints as itself. */
  lemma PrintedWord(atom: string)
    requires AllPlain(atom)
    ensures AllPlain(Printed(atom)) && Fixed(Printed(atom))
  {
    hide AllPlain, ParseAtom, PrintAtom, HasColons;
    if atom != "" && HasColons(atom) {
      if ParseAtom(atom).Some? {
        ParsedIsWellFormed(atom);
        PrintedPath(ParseAtom(atom).value);
      } else {
        NothingIsPlain();
      }
    } else if atom == "" {
      NothingIsPlain();
    }
  }

  lemma NothingIsPlain()
    ensures AllPlain("")
  {
  }

  // ----- output is only ever appended -----

  function Prepend(out: string, r: Option<string>): Option<string> { if r.None? then None else Some(out + r.value) }

  lemma {:induction false} ScanAppends(s: string, out: string, atom: string)
    ensures Scan(s, out, atom) == Prepend(out, Scan(s, "", atom))
    decreases |s|
  {
    FlushAppends(out, atom);
    if s != "" {
      if Plain(s[0]) {
        ScanAppends(s[1..], out, atom + [s[0]]);
      } else if Flush("", atom).Some? {
        var w := Flush("", atom).value;
        var d := if Delimiter(s[0]) then [s[0]] else "";
        ScanAppends(s[1..], out + w + d, "");
        ScanAppends(s[1..], w + d, "");
        assert w + "" == w && out + w + "" == out + w;
        PrependTwice(out, w + d, Scan(s[1..], "", ""));
        assert out + (w + d) == out + w + d;
      }
    }
  }

  lemma FlushAppends(out: string, atom: string)
    ensures Flush(out, atom) == Prepend(out, Flush("", atom))
  {
    if atom == "" {
      assert out + "" == out;
    } else if Flushed(atom).Some? {
      assert "" + Flushed(atom).value == Flushed(atom).value;
    }
  }

  lemma PrependTwice(a: string, b: string, r: Option<string>)
    ensures Prepend(a, Prepend(b, r)) == Prepend(a + b, r)
  {
    if r.Some? { assert a + (b + r.value) == a + b + r.value; }
  }

  lemma FlushIsPrinted(atom: string)
    ensures Flush("", atom).Some? ==> Flush("", atom).value == Printed(atom)
  {
    if atom != "" && Flushed(atom).Some? { assert "" + Flushed(atom).value == Flushed(atom).value; }
  }

  lemma ScanUnfolds(s: string, atom: string)
    requires s != "" && !Plain(s[0]) && Scan(s, "", atom).Some?
    ensures Flush("", atom).Some?
    ensures Scan(s, "", atom) ==
            Scan(s[1..], Flush("", atom).value + if Delimiter(s[0]) then [s[0]] else "", "")
  {
    var w := Flush("", atom).value;
    assert w + "" == w;
    hide Flush;
  }

  /** The output of an accepted text, one character on. */
  lemma OutputUnfolds(s: string, atom: string)
    requires s != "" && !Plain(s[0]) && Scan(s, "", atom).Some?
    ensures Scan(s[1..], "", "").Some?
    ensures var d := if Delimiter(s[0]) then [s[0]] else "";
            Scan(s, "", atom).value == Printed(atom) + (d + Scan(s[1..], "", "").value)
  {
    hide Scan, Flush, Printed;
    var d := if Delimiter(s[0]) then [s[0]] else "";
    FlushIsPrinted(atom);
    ScanUnfolds(s, atom);
    ScanAppends(s[1..], Printed(atom) + d, "");
    var rest := Scan(s[1..], "", "").value;
    assert Printed(atom) + d + rest == Printed(atom) + (d + rest);
  }

  // ----- the second pass -----

  lemma PlainJoins(a: string, b: string)
    requires AllPlain(a) && AllPlain(b)
    ensures AllPlain(a + b)
  {
  }

  /** At the end of the text the pending run is flushed. */
  lemma RescanEnd(run: string)
    requires AllPlain(run)
    ensures Scan("", "", run) == Some(run) <==> Fixed(run)
  {
    FlushFixedIff(run);
  }

  lemma FlushFixedIff(run: string)
    ensures Flush("", run) == Some(run) <==> Fixed(run)
  {
    if run != "" && Flushed(run).Some? { assert "" + Flushed(run).value == Flushed(run).value; }
  }

  /** At a delimiter the pending run is flushed and the next begins. */
  lemma RescanDelimiter(run: string, c: char, rest: string)
    requires AllPlain(run) && Delimiter(c)
    ensures Scan([c] + rest, "", run) == Some(run + ([c] + rest)) <==> Fixed(run) && Scan(rest, "", "") == Some(rest)
  {
    var t := [c] + rest;
    assert t[0] == c && t[1..] == rest && !Plain(c);
    FlushFixedIff(run);
    var f := Flush("", run);
    if f.Some? {
      PrintedWord(run);
      assert f.value == Printed(run) by { if run != "" { assert "" + Flushed(run).value == Flushed(run).value; } }
      ScanAppends(rest, f.value + [c], "");
      SameSplit(f.value, run, c, Scan(rest, "", ""), rest);
    }
  }

  lemma SameSplit(f: string, run: string, c: char, r: Option<string>, rest: string)
    requires AllPlain(f) && AllPlain(run) && !Plain(c)
    ensures Prepend(f + [c], r) == Some(run + ([c] + rest)) <==> f == run && r == Some(rest)
  {
    if r.Some? {
      assert f + [c] + r.value == f + ([c] + r.value);
      if f + ([c] + r.value) == run + ([c] + rest) {
        PlainPrefixUnique(f, [c] + r.value, run, [c] + rest);
        assert ([c] + r.value)[1..] == r.value && ([c] + rest)[1..] == rest;
      }
    }
  }

  /** Rescanning the output of `s`, after the run printed so far, returns it unchanged exactly when
      the text is harmless. */
  lemma {:induction false} RescanIff(s: string, atom: string, run: string)
    requires AllPlain(atom) && AllPlain(run) && Scan(s, "", atom).Some?
    ensures var r := Scan(s, "", atom).value; Scan(r, "", run) == Some(run + r) <==> Harmless(s, atom, run)
    decreases |s|
  {
    var r := Scan(s, "", atom).value;
    var joined := run + Printed(atom);
    PrintedWord(atom);
    PlainJoins(run, Printed(atom));
    if s == "" {
      assert r == Printed(atom) by { if atom != "" { assert "" + Flushed(atom).value == Flushed(atom).value; } }
      ScanWord(r, "", "", run);
      assert r + "" == r;
      RescanEnd(joined);
    } else if Plain(s[0]) {
      RescanIff(s[1..], atom + [s[0]], run);
    } else {
      OutputUnfolds(s, atom);
      NothingIsPlain();
      RescanRun(s, atom, run);
    }
  }

  lemma RescanRun(s: string, atom: string, run: string)
    requires s != "" && !Plain(s[0]) && AllPlain(atom) && AllPlain(run) && Scan(s, "", atom).Some?
    ensures var r := Scan(s, "", atom).value; Scan(r, "", run) == Some(run + r) <==> Harmless(s, atom, run)
    decreases |s|, 0
  {
    var joined := run + Printed(atom);
    HarmlessUnfolds(s, atom, run);
    PrintedWord(atom);
    PlainJoins(run, Printed(atom));
    OutputUnfolds(s, atom);
    NothingIsPlain();
    hide Scan, Printed, Harmless, Fixed, AllPlain;
    var rest := Scan(s[1..], "", "").value;
    if Delimiter(s[0]) {
      RescanIff(s[1..], "", "");
      assert "" + rest == rest;
      RescanPieces(run, Printed(atom), [s[0]] + rest);
      RescanDelimiter(joined, s[0], rest);
    } else {
      RescanIff(s[1..], "", joined);
      assert "" + rest == rest;
      RescanPieces(run, Printed(atom), rest);
    }
  }

  /** The printed word joins the pending run. */
  lemma RescanPieces(run: string, word: string, rest: string)
    requires AllPlain(word)
    ensures Scan(word + rest, "", run) == Scan(rest, "", run + word)
    ensures run + (word + rest) == run + word + rest
  {
    ScanWord(word, rest, "", run);
  }

  lemma HarmlessUnfolds(s: string, atom: string, run: string)
    requires s != "" && !Plain(s[0])
    ensures Harmless(s, atom, run) <==>
            if Delimiter(s[0]) then Fixed(run + Printed(atom)) && Harmless(s[1..], "", "")
            else Harmless(s[1..], "", run + Printed(atom))
  {
  }

  /** For every accepted text, canonicalising its canonical form changes nothing if and only if every run of
      the text between two delimiters, its printed words joined, is printed as it stands. */
  lemma SecondPassFixedIff(s: string)
    requires Canonical(s).Some?
    ensures Canonical(Canonical(s).value) == Canonical(s) <==> Harmless(Trim(s), "", "")
  {
    var t := Trim(s);
    var r := Canonical(s).value;
    NothingIsPlain();
    RescanIff(t, "", "");
    assert "" + r == r;
    TrimLeftRedundant(r);
    TrimRightRedundant(TrimLeft(r));
  }

  // ----- one word per run -----

  /** No run has two words.  `ended` says that a word of the current run is complete. */
  predicate OneWordEach(s: string, atom: string, ended: bool) {
    if s == "" then !(ended && atom != "")
    else if Plain(s[0]) then OneWordEach(s[1..], atom + [s[0]], ended)
    else if Delimiter(s[0]) then !(ended && atom != "") && OneWordEach(s[1..], "", false)
    else !(ended && atom != "") && OneWordEach(s[1..], "", ended || atom != "")
  }

  lemma {:induction false} OneWordIsHarmless(s: string, atom: string, run: string, ended: bool)
    requires AllPlain(atom) && AllPlain(run) && Fixed(run) && (!ended ==> run == "")
    requires OneWordEach(s, atom, ended)
    ensures Harmless(s, atom, run)
    decreases |s|
  {
    PrintedWord(atom);
    NothingIsPlain();
    PlainJoins(run, Printed(atom));
    if s != "" && Plain(s[0]) {
      OneWordIsHarmless(s[1..], atom + [s[0]], run, ended);
    } else {
      assert run + Printed(atom) == if ended then run else Printed(atom);
      if s != "" {
        if Delimiter(s[0]) {
          OneWordIsHarmless(s[1..], "", "", false);
        } else {
          OneWordIsHarmless(s[1..], "", run + Printed(atom), ended || atom != "");
        }
      }
    }
  }

  /** A text with at most one word per run, such as `a , b`, is left alone by a second pass. */
  lemma OneWordPerRunIsFixed(s: string)
    requires Canonical(s).Some? && OneWordEach(Trim(s), "", false)
    ensures Canonical(Canonical(s).value) == Canonical(s)
  {
    NothingIsPlain();
    OneWordIsHarmless(Trim(s), "", "", false);
    SecondPassFixedIff(s);
  }
}
