/** The Move type canonicaliser (exchange-dashboard/src/format.ts,
    `canonicalizeType`).  The source is a flat character scanner; here it is
    proved to agree with a printer of type trees on every spelling of a type. */
module MoveTypes {
  import opened Wrappers
  import opened Chars
  import opened HexNumbers

  // ----- characters -----

  /** JavaScript white space, which `trim` and `\s` share. */
  predicate Space(c: char) {
    || '\t' <= c <= '\r' || c == ' ' || c == '\U{00A0}' || c == '\U{1680}' || '\U{2000}' <= c <= '\U{200A}'
    || c == '\U{2028}' || c == '\U{2029}' || c == '\U{202F}' || c == '\U{205F}' || c == '\U{3000}' || c == '\U{FEFF}'
  }

  predicate Delimiter(c: char) { c == '<' || c == '>' || c == ',' }

  predicate Plain(c: char) { !Space(c) && !Delimiter(c) }

  predicate IdentStart(c: char) { 'a' <= c <= 'z' || 'A' <= c <= 'Z' || c == '_' }
  predicate IdentPart(c: char) { IdentStart(c) || '0' <= c <= '9' }

  predicate AllSpace(s: string) { forall i :: 0 <= i < |s| ==> Space(s[i]) }
  predicate AllPlain(s: string) { forall i :: 0 <= i < |s| ==> Plain(s[i]) }
  predicate Ident(s: string) { |s| > 0 && IdentStart(s[0]) && forall i :: 0 <= i < |s| ==> IdentPart(s[i]) }

  /** Lower case, padded with leading zeros to 64 digits. */
  function Address(hex: string): (r: string)
    ensures |hex| <= 64 ==> |r| == 64
  {
    if |hex| <= 64 then Zeros(64 - |hex|) + LowerAll(hex) else LowerAll(hex)
  }

  // ----- atoms -----

  /** Index of the first colon, or the length. */
  function Colon(s: string): (i: nat)
    ensures i <= |s| && (i < |s| ==> s[i] == ':') && forall k :: 0 <= k < i ==> s[k] != ':'
  {
    if s == "" || s[0] == ':' then 0 else 1 + Colon(s[1..])
  }

  datatype Atom = Atom(hex: string, mod: string, name: string)

  /** Split `a::b` at its first colon pair. */
  function Split(s: string): Option<(string, string)> {
    var i := Colon(s);
    if i + 1 < |s| && s[i + 1] == ':' then Some((s[..i], s[i + 2..])) else None
  }

  /** The source's regular expression for a struct atom. */
  function ParseAtom(s: string): Option<Atom> {
    var a := Split(Body(s));
    if a.None? then None else
    var b := Split(a.value.1);
    if b.None? then None else
    var atom := Atom(a.value.0, b.value.0, b.value.1);
    if WellFormedAtom(atom) then Some(atom) else None
  }

  function HasColons(s: string): bool { exists i :: 0 <= i < |s| - 1 && s[i] == ':' && s[i + 1] == ':' }

  function PrintAtom(a: Atom): string { "0x" + Address(a.hex) + "::" + a.mod + "::" + a.name }

  /** What flushing a non-empty atom appends, or `None` for a malformed struct. */
  function Flushed(atom: string): Option<string> {
    if HasColons(atom) then
      var a := ParseAtom(atom);
      if a.None? then None else Some(PrintAtom(a.value))
    else Some(atom)
  }

  lemma SplitAt(a: string, b: string)
    requires forall k :: 0 <= k < |a| ==> a[k] != ':'
    ensures Split(a + "::" + b) == Some((a, b))
  {
    var s := a + "::" + b;
    assert s[|a|] == ':' && s[|a| + 1] == ':';
    assert Colon(s) == |a|;
    assert s[..|a|] == a && s[|a| + 2..] == b;
  }

  predicate WellFormedAtom(a: Atom) { 1 <= |a.hex| <= 64 && AllHex(a.hex) && Ident(a.mod) && Ident(a.name) }

  function AtomText(a: Atom): string { a.hex + "::" + (a.mod + "::" + a.name) }

  /** The declarative reading of the regular expression. */
  ghost predicate Matches(s: string, a: Atom) {
    WellFormedAtom(a) && (s == AtomText(a) || s == "0x" + AtomText(a))
  }

  lemma SplitInverse(s: string)
    ensures Split(s).Some? ==> s == Split(s).value.0 + "::" + Split(s).value.1
  {
    var i := Colon(s);
    if Split(s).Some? {
      assert s == s[..i] + [s[i]] + [s[i + 1]] + s[i + 2..];
    }
  }

  function Body(s: string): string { if "0x" <= s then s[2..] else s }

  lemma BodyOfText(a: Atom, prefixed: bool)
    requires WellFormedAtom(a)
    ensures Body(if prefixed then "0x" + AtomText(a) else AtomText(a)) == AtomText(a)
  {
    var t := AtomText(a);
    if prefixed {
      assert ("0x" + t)[2..] == t;
    } else {
      assert t[0] == a.hex[0] && t[1] == if |a.hex| > 1 then a.hex[1] else ':';
      assert "0x"[1] == 'x' && t[1] != 'x';
    }
  }

  lemma SplitsOfText(a: Atom)
    requires WellFormedAtom(a)
    ensures Split(AtomText(a)) == Some((a.hex, a.mod + "::" + a.name))
    ensures Split(a.mod + "::" + a.name) == Some((a.mod, a.name))
  {
    SplitAt(a.hex, a.mod + "::" + a.name);
    SplitAt(a.mod, a.name);
  }

  lemma MatchesParse(s: string, a: Atom)
    requires Matches(s, a)
    ensures ParseAtom(s) == Some(a)
  {
    SplitsOfText(a);
    BodyOfText(a, s != AtomText(a));
    hide Split, Body, AtomText;
  }

  lemma ParsedMatches(s: string, a: Atom)
    requires ParseAtom(s) == Some(a)
    ensures Matches(s, a)
  {
    hide Split, WellFormedAtom;
    SplitInverse(Body(s));
    SplitInverse(Split(Body(s)).value.1);
    assert Body(s) == AtomText(a);
    assert "0x" <= s ==> s == "0x" + s[2..];
  }

  /** Parsing finds exactly the matches of the expression. */
  lemma ParseIffMatches(s: string, a: Atom)
    ensures ParseAtom(s) == Some(a) <==> Matches(s, a)
  {
    hide *;
    if Matches(s, a) { MatchesParse(s, a); }
    if ParseAtom(s) == Some(a) { ParsedMatches(s, a); }
  }

  // ----- the scanner -----

  function TrimLeft(s: string): string { if s != "" && Space(s[0]) then TrimLeft(s[1..]) else s }
  function TrimRight(s: string): string { if s != "" && Space(s[|s| - 1]) then TrimRight(s[..|s| - 1]) else s }
  function Trim(s: string): string { TrimRight(TrimLeft(s)) }

  /** Flush the pending atom onto the output. */
  function Flush(out: string, atom: string): Option<string> {
    if atom == "" then Some(out) else
    var f := Flushed(atom);
    if f.None? then None else Some(out + f.value)
  }

  /** The scan of `s` with output `out` and pending atom `atom`. */
  function Scan(s: string, out: string, atom: string): Option<string> {
    if s == "" then Flush(out, atom)
    else if Plain(s[0]) then Scan(s[1..], out, atom + [s[0]])
    else
      var f := Flush(out, atom);
      if f.None? then None
      else Scan(s[1..], if Delimiter(s[0]) then f.value + [s[0]] else f.value, "")
  }

  function Canonical(s: string): Option<string> {
    var r := Scan(Trim(s), "", "");
    if r == Some("") then None else r
  }

  lemma {:induction false} TrimOfPlain(s: string)
    requires AllPlain(s)
    ensures Trim(s) == s
  {
    assert TrimLeft(s) == s;
    assert TrimRight(s) == s;
  }

  /** `canonicalizeType`. */
  method CanonicalizeType(s: string) returns (r: Option<string>)
    ensures r == Canonical(s)
  {
    var t := Trim(s);
    var out, atom := "", "";
    var i := 0;
    while i < |t|
      invariant i <= |t| && AllPlain(atom)
      invariant Scan(t, "", "") == Scan(t[i..], out, atom)
    {
      var c := t[i];
      assert t[i..][0] == c && t[i..][1..] == t[i + 1..];
      TrimOfPlain(atom);
      if Plain(c) {
        atom := atom + [c];
      } else {
        // flush()
        var trimmed := Trim(atom);
        if trimmed != "" {
          var f := Flushed(trimmed);
          if f.None? { return None; }
          out := out + f.value;
        }
        atom := "";
        if Delimiter(c) { out := out + [c]; }
      }
      i := i + 1;
    }
    TrimOfPlain(atom);
    if atom != "" {
      var f := Flushed(atom);
      if f.None? { return None; }
      out := out + f.value;
    }
    r := if out == "" then None else Some(out);
  }

  // ----- type trees and their canonical printing -----

  const ADDRESS_DIGITS: nat := 64

  /** An address is a number of that many hexadecimal digits. */
  type Addr = n: nat | n < Pow16(ADDRESS_DIGITS) witness 0

  datatype Head = Struct(addr: Addr, mod: string, name: string) | Keyword(word: string)
  datatype MoveType = MoveType(head: Head, args: Args)
  /** Type arguments; `NoArgs` alone means there are no angle brackets. */
  datatype Args = NoArgs | MoreArgs(first: MoveType, rest: Args)

  /** A primitive or `vector`: any word that is not a path. */
  predicate ValidWord(w: string) { w != "" && AllPlain(w) && !HasColons(w) }

  predicate ValidHead(h: Head) {
    match h
    case Struct(_, mod, name) => Ident(mod) && Ident(name)
    case Keyword(w) => ValidWord(w)
  }

  predicate ValidType(t: MoveType) { ValidHead(t.head) && ValidArgs(t.args) }
  predicate ValidArgs(args: Args) { args.MoreArgs? ==> ValidType(args.first) && ValidArgs(args.rest) }

  function PrintHead(h: Head): string {
    match h
    case Struct(addr, mod, name) => "0x" + (Hex(addr, ADDRESS_DIGITS) + "::" + (mod + "::" + name))
    case Keyword(w) => w
  }

  function Print(t: MoveType): string { PrintHead(t.head) + PrintArgs(t.args) }
  function PrintArgs(args: Args): string
    decreases args, 1
  {
    if args.NoArgs? then "" else "<" + PrintList(args) + ">"
  }
  function PrintList(args: Args): string
    decreases args, 0
  {
    match args
    case NoArgs => ""
    case MoreArgs(t, rest) => Print(t) + if rest.NoArgs? then "" else "," + PrintList(rest)
  }

  // ----- spellings -----

  datatype SpelledHead = Path(prefixed: bool, atom: Atom) | Word(word: string)
  /** A type as somebody may write it, with white space around its parts. */
  datatype Spelling = Spelling(before: string, head: SpelledHead, between: string, args: SpelledArgs, after: string)
  datatype SpelledArgs = NoSpelled | MoreSpelled(first: Spelling, rest: SpelledArgs)

  predicate ValidSpelledHead(h: SpelledHead) {
    match h
    case Path(_, atom) => WellFormedAtom(atom)
    case Word(w) => ValidWord(w)
  }
  predicate ValidSpelling(sp: Spelling) {
    && AllSpace(sp.before) && AllSpace(sp.between) && AllSpace(sp.after)
    && ValidSpelledHead(sp.head) && ValidSpelledArgs(sp.args)
  }
  predicate ValidSpelledArgs(args: SpelledArgs) {
    args.MoreSpelled? ==> ValidSpelling(args.first) && ValidSpelledArgs(args.rest)
  }

  function HeadText(h: SpelledHead): string {
    match h
    case Path(prefixed, atom) => if prefixed then "0x" + AtomText(atom) else AtomText(atom)
    case Word(w) => w
  }

  /** The characters written. */
  function Text(sp: Spelling): string {
    sp.before + (HeadText(sp.head) + (sp.between + (ArgsText(sp.args) + sp.after)))
  }
  function ArgsText(args: SpelledArgs): string
    decreases args, 1
  {
    if args.NoSpelled? then "" else "<" + ListText(args) + ">"
  }
  function ListText(args: SpelledArgs): string
    decreases args, 0
  {
    match args
    case NoSpelled => ""
    case MoreSpelled(sp, rest) => Text(sp) + if rest.NoSpelled? then "" else "," + ListText(rest)
  }

  /** The address that the digits spell. */
  function AddressOf(hex: string): Addr {
    if AllHex(hex) && |hex| <= ADDRESS_DIGITS then
      HexValueBound(hex);
      Pow16Grows(|hex|, ADDRESS_DIGITS);
      HexValue(hex)
    else 0
  }

  /** The type meant. */
  function HeadOf(h: SpelledHead): Head {
    match h
    case Path(_, atom) => Struct(AddressOf(atom.hex), atom.mod, atom.name)
    case Word(w) => Keyword(w)
  }
  function Tree(sp: Spelling): MoveType { MoveType(HeadOf(sp.head), TreeArgs(sp.args)) }
  function TreeArgs(args: SpelledArgs): Args {
    match args
    case NoSpelled => NoArgs
    case MoreSpelled(sp, rest) => MoreArgs(Tree(sp), TreeArgs(rest))
  }

  // ----- addresses -----

  lemma AddressFixed(addr: string)
    requires |addr| == 64 && LowerAll(addr) == addr
    ensures Address(addr) == addr
  {
    assert Zeros(0) + addr == addr;
  }

  lemma AddressValid(hex: string)
    requires 1 <= |hex| <= 64 && AllHex(hex)
    ensures AllHex(Address(hex)) && LowerAll(Address(hex)) == Address(hex)
  {
    var r := Address(hex);
    forall i | 0 <= i < |r|
      ensures HexDigit(r[i]) && Lower(r[i]) == r[i]
    {
      if 64 - |hex| <= i { assert r[i] == Lower(hex[i - (64 - |hex|)]); }
    }
  }

  /** Lower case and padding turn the digits into the 64 digits of the number they spell. */
  lemma AddressPadsTheNumber(hex: string)
    requires 1 <= |hex| <= 64 && AllHex(hex)
    ensures Address(hex) == Hex(AddressOf(hex), ADDRESS_DIGITS)
  {
    hide Hex, HexValue, Pow16, AllHex;
    PaddedDigits(hex, ADDRESS_DIGITS);
  }

  lemma AddressOfDigits(addr: Addr)
    ensures AddressOf(Hex(addr, ADDRESS_DIGITS)) == addr
  {
    ValueOfHex(addr, ADDRESS_DIGITS);
  }

  /** Two spellings of an address come out alike exactly when they spell the same number. */
  lemma SameAddressIff(a: string, b: string)
    requires 1 <= |a| <= 64 && AllHex(a) && 1 <= |b| <= 64 && AllHex(b)
    ensures Address(a) == Address(b) <==> HexValue(a) == HexValue(b)
  {
    AddressPadsTheNumber(a);
    AddressPadsTheNumber(b);
    AddressOfDigits(AddressOf(a));
    AddressOfDigits(AddressOf(b));
  }

  // ----- the scanner follows the tree -----

  lemma {:induction false} ScanSpaces(ws: string, rest: string, out: string)
    requires AllSpace(ws)
    ensures Scan(ws + rest, out, "") == Scan(rest, out, "")
  {
    if ws == "" {
      assert ws + rest == rest;
    } else {
      assert (ws + rest)[0] == ws[0] && (ws + rest)[1..] == ws[1..] + rest;
      ScanSpaces(ws[1..], rest, out);
    }
  }

  lemma {:induction false} ScanWord(w: string, rest: string, out: string, atom: string)
    requires AllPlain(w)
    ensures Scan(w + rest, out, atom) == Scan(rest, out, atom + w)
  {
    if w == "" {
      assert w + rest == rest && atom + w == atom;
    } else {
      assert (w + rest)[0] == w[0] && (w + rest)[1..] == w[1..] + rest;
      assert atom + [w[0]] + w[1..] == atom + w;
      ScanWord(w[1..], rest, out, atom + [w[0]]);
    }
  }

  /** No character of `rest` continues a pending atom. */
  predicate Boundary(rest: string) { rest == "" || !Plain(rest[0]) }

  lemma FlushAtBoundary(rest: string, out: string, atom: string)
    requires Boundary(rest) && Flush(out, atom).Some?
    ensures Scan(rest, out, atom) == Scan(rest, Flush(out, atom).value, "")
  {
    var f := Flush(out, atom).value;
    assert Flush(f, "") == Some(f);
  }

  lemma ScanDelimiter(c: char, rest: string, out: string)
    requires Delimiter(c)
    ensures Scan([c] + rest, out, "") == Scan(rest, out + [c], "")
  {
    assert ([c] + rest)[0] == c && ([c] + rest)[1..] == rest;
    assert Flush(out, "") == Some(out);
  }

  lemma PlainConcat(a: string, b: string)
    requires AllPlain(a) && AllPlain(b)
    ensures AllPlain(a + b)
  {
  }

  lemma IdentPlain(s: string)
    requires Ident(s) || AllHex(s)
    ensures AllPlain(s)
  {
  }

  lemma AtomTextPlain(a: Atom)
    requires WellFormedAtom(a)
    ensures AllPlain(AtomText(a)) && AllPlain("0x" + AtomText(a))
  {
    hide AllPlain, Ident, AllHex;
    IdentPlain(a.hex);
    IdentPlain(a.mod);
    IdentPlain(a.name);
    assert AllPlain("::") && AllPlain("0x") by { ConstantsPlain(); }
    PlainConcat("::", a.name);
    PlainConcat(a.mod, "::");
    PlainConcat(a.mod + "::", a.name);
    PlainConcat(a.hex, "::");
    PlainConcat(a.hex + "::", a.mod + "::" + a.name);
    PlainConcat("0x", AtomText(a));
  }

  lemma ConstantsPlain()
    ensures AllPlain("::") && AllPlain("0x")
  {
  }

  lemma ColonsAt(s: string, k: nat)
    requires k + 1 < |s| && s[k] == ':' && s[k + 1] == ':'
    ensures HasColons(s)
  {
  }

  lemma PathText(a: Atom, prefixed: bool)
    requires WellFormedAtom(a)
    ensures var s := HeadText(Path(prefixed, a)); AllPlain(s) && HasColons(s) && s != "" && ParseAtom(s) == Some(a)
  {
    hide ParseAtom, HasColons, AllPlain, AllHex, Ident;
    var s := HeadText(Path(prefixed, a));
    AtomTextPlain(a);
    assert Matches(s, a);
    ParseIffMatches(s, a);
    ColonsAt(s, if prefixed then |a.hex| + 2 else |a.hex|);
  }

  lemma HeadFlushes(h: SpelledHead, out: string)
    requires ValidSpelledHead(h)
    ensures AllPlain(HeadText(h))
    ensures Flush(out, HeadText(h)) == Some(out + PrintHead(HeadOf(h)))
  {
    hide ParseAtom, HasColons, AllPlain, AllHex, Ident, Address;
    if h.Path? {
      PathText(h.atom, h.prefixed);
      AddressPadsTheNumber(h.atom.hex);
      var a := Address(h.atom.hex);
      assert PrintAtom(h.atom) == "0x" + (a + "::" + (h.atom.mod + "::" + h.atom.name));
      hide HeadText;
    }
  }

  lemma {:induction false} ScanHead(h: SpelledHead, rest: string, out: string)
    requires ValidSpelledHead(h) && Boundary(rest)
    ensures Scan(HeadText(h) + rest, out, "") == Scan(rest, out + PrintHead(HeadOf(h)), "")
  {
    HeadFlushes(h, out);
    ScanWord(HeadText(h), rest, out, "");
    assert "" + HeadText(h) == HeadText(h);
    FlushAtBoundary(rest, out, HeadText(h));
  }

  lemma ArgsBoundary(sp: Spelling, rest: string)
    requires ValidSpelling(sp) && Boundary(rest)
    ensures Boundary(sp.between + (ArgsText(sp.args) + (sp.after + rest)))
  {
    var s := sp.between + (ArgsText(sp.args) + (sp.after + rest));
    if sp.between != "" {
      assert s[0] == sp.between[0];
    } else if sp.args.MoreSpelled? {
      assert s[0] == '<';
    } else if sp.after != "" {
      assert s[0] == sp.after[0];
    } else {
      assert s == rest;
    }
  }

  lemma {:induction false} ScanText(sp: Spelling, rest: string, out: string)
    requires ValidSpelling(sp) && Boundary(rest)
    ensures Scan(Text(sp) + rest, out, "") == Scan(rest, out + Print(Tree(sp)), "")
    decreases sp, 2
  {
    hide Scan, HeadText, PrintHead, HeadOf, AllSpace;
    var r3 := sp.after + rest;
    var r2 := ArgsText(sp.args) + r3;
    var r1 := sp.between + r2;
    assert Text(sp) + rest == sp.before + (HeadText(sp.head) + r1);
    var o := out + PrintHead(HeadOf(sp.head));
    ScanSpaces(sp.before, HeadText(sp.head) + r1, out);
    ArgsBoundary(sp, rest);
    ScanHead(sp.head, r1, out);
    ScanSpaces(sp.between, r2, o);
    ScanArgs(sp.args, r3, o);
    assert o + PrintArgs(TreeArgs(sp.args)) == out + Print(Tree(sp));
    ScanSpaces(sp.after, rest, o + PrintArgs(TreeArgs(sp.args)));
  }

  lemma {:induction false} ScanArgs(args: SpelledArgs, rest: string, out: string)
    requires ValidSpelledArgs(args)
    ensures Scan(ArgsText(args) + rest, out, "") == Scan(rest, out + PrintArgs(TreeArgs(args)), "")
    decreases args, 1
  {
    if args.NoSpelled? {
      assert ArgsText(args) + rest == rest && out + PrintArgs(TreeArgs(args)) == out;
    } else {
      assert ArgsText(args) + rest == ['<'] + (ListText(args) + (['>'] + rest));
      ScanDelimiter('<', ListText(args) + (['>'] + rest), out);
      ScanList(args, ['>'] + rest, out + ['<']);
      var o := out + ['<'] + PrintList(TreeArgs(args));
      ScanDelimiter('>', rest, o);
      assert o + ['>'] == out + PrintArgs(TreeArgs(args));
    }
  }

  lemma {:induction false} ScanList(args: SpelledArgs, rest: string, out: string)
    requires ValidSpelledArgs(args) && args.MoreSpelled? && Boundary(rest)
    ensures Scan(ListText(args) + rest, out, "") == Scan(rest, out + PrintList(TreeArgs(args)), "")
    decreases args, 0
  {
    var tail := args.rest;
    var o := out + Print(Tree(args.first));
    if tail.NoSpelled? {
      assert ListText(args) == Text(args.first) && PrintList(TreeArgs(args)) == Print(Tree(args.first));
      ScanText(args.first, rest, out);
    } else {
      assert ListText(args) + rest == Text(args.first) + ([','] + (ListText(tail) + rest));
      ScanText(args.first, [','] + (ListText(tail) + rest), out);
      ScanDelimiter(',', ListText(tail) + rest, o);
      ScanList(tail, rest, o + [',']);
      assert o + [','] + PrintList(TreeArgs(tail)) == out + PrintList(TreeArgs(args));
    }
  }

  // ----- trimming first changes nothing -----

  lemma {:induction false} ScanTrailing(s: string, c: char, out: string, atom: string)
    requires Space(c)
    ensures Scan(s + [c], out, atom) == Scan(s, out, atom)
    decreases |s|
  {
    if s == "" {
      assert s + [c] == [c];
      assert Scan([c][1..], out, "") == Flush(out, "") == Some(out);
    } else {
      assert (s + [c])[0] == s[0] && (s + [c])[1..] == s[1..] + [c];
      if Plain(s[0]) {
        ScanTrailing(s[1..], c, out, atom + [s[0]]);
      } else {
        var f := Flush(out, atom);
        if f.Some? {
          ScanTrailing(s[1..], c, if Delimiter(s[0]) then f.value + [s[0]] else f.value, "");
        }
      }
    }
  }

  lemma {:induction false} TrimRightRedundant(s: string)
    ensures Scan(TrimRight(s), "", "") == Scan(s, "", "")
  {
    if s != "" && Space(s[|s| - 1]) {
      TrimRightRedundant(s[..|s| - 1]);
      ScanTrailing(s[..|s| - 1], s[|s| - 1], "", "");
      assert s == s[..|s| - 1] + [s[|s| - 1]];
    }
  }

  lemma {:induction false} TrimLeftRedundant(s: string)
    ensures Scan(TrimLeft(s), "", "") == Scan(s, "", "")
  {
    if s != "" && Space(s[0]) {
      TrimLeftRedundant(s[1..]);
      ScanSpaces(s[..1], s[1..], "");
      assert s == s[..1] + s[1..];
    }
  }

  /** The scanner turns every spelling of a type into the canonical printing of its tree. */
  lemma ScannerPrintsTheTree(sp: Spelling)
    requires ValidSpelling(sp)
    ensures Canonical(Text(sp)) == Some(Print(Tree(sp)))
  {
    var s := Text(sp);
    TrimLeftRedundant(s);
    TrimRightRedundant(TrimLeft(s));
    ScanText(sp, "", "");
    assert s + "" == s && "" + Print(Tree(sp)) == Print(Tree(sp));
    HeadNotEmpty(sp.head);
  }

  /** Nothing is accepted as the empty text: blank input is refused. */
  lemma {:induction false} BlankIsRefused(s: string)
    requires AllSpace(s)
    ensures Canonical(s) == None
  {
    TrimLeftRedundant(s);
    TrimRightRedundant(TrimLeft(s));
    ScanSpaces(s, "", "");
    assert s + "" == s;
  }

  lemma HeadNotEmpty(h: SpelledHead)
    requires ValidSpelledHead(h)
    ensures PrintHead(HeadOf(h)) != ""
  {
  }

  // ----- the printing is itself a spelling -----

  function Spelled(t: MoveType): Spelling { Spelling("", SpelledHeadOf(t.head), "", SpelledList(t.args), "") }
  function SpelledList(args: Args): SpelledArgs {
    match args
    case NoArgs => NoSpelled
    case MoreArgs(t, rest) => MoreSpelled(Spelled(t), SpelledList(rest))
  }
  function SpelledHeadOf(h: Head): SpelledHead {
    match h
    case Struct(addr, mod, name) => Path(true, Atom(Hex(addr, ADDRESS_DIGITS), mod, name))
    case Keyword(w) => Word(w)
  }

  lemma SpelledHeadIsPrint(h: Head)
    requires ValidHead(h)
    ensures ValidSpelledHead(SpelledHeadOf(h))
    ensures HeadText(SpelledHeadOf(h)) == PrintHead(h) && HeadOf(SpelledHeadOf(h)) == h
  {
    if h.Struct? {
      AddressOfDigits(h.addr);
      var x := Hex(h.addr, ADDRESS_DIGITS);
      hide Hex, AddressOf, Pow16;
      assert "0x" + (x + "::" + (h.mod + "::" + h.name)) == PrintHead(h);
    }
  }

  lemma {:induction false} SpelledIsPrint(t: MoveType)
    requires ValidType(t)
    ensures ValidSpelling(Spelled(t)) && Text(Spelled(t)) == Print(t) && Tree(Spelled(t)) == t
    decreases t, 1
  {
    SpelledListIsPrint(t.args);
    SpelledHeadIsPrint(t.head);
    hide ValidHead, ValidSpelledHead, HeadText, PrintHead, HeadOf, SpelledHeadOf, Hex, Pow16;
    var h := HeadText(SpelledHeadOf(t.head));
    assert "" + (h + ("" + (PrintArgs(t.args) + ""))) == PrintHead(t.head) + PrintArgs(t.args);
  }

  lemma {:induction false} SpelledListIsPrint(args: Args)
    requires ValidArgs(args)
    ensures ValidSpelledArgs(SpelledList(args)) && ListText(SpelledList(args)) == PrintList(args)
    ensures TreeArgs(SpelledList(args)) == args && ArgsText(SpelledList(args)) == PrintArgs(args)
    decreases args, 0
  {
    if args.MoreArgs? {
      SpelledIsPrint(args.first);
      SpelledListIsPrint(args.rest);
    }
  }

  lemma {:induction false} TreeValid(sp: Spelling)
    requires ValidSpelling(sp)
    ensures ValidType(Tree(sp))
    decreases sp, 1
  {
    TreeArgsValid(sp.args);
  }

  lemma {:induction false} TreeArgsValid(args: SpelledArgs)
    requires ValidSpelledArgs(args)
    ensures ValidArgs(TreeArgs(args))
    decreases args, 0
  {
    if args.MoreSpelled? {
      TreeValid(args.first);
      TreeArgsValid(args.rest);
    }
  }

  // ----- the printing determines the type -----

  lemma PlainPrefixUnique(a: string, r: string, b: string, q: string)
    requires AllPlain(a) && AllPlain(b) && Boundary(r) && Boundary(q) && a + r == b + q
    ensures a == b && r == q
  {
    assert a == (a + r)[..|a|] && b == (b + q)[..|b|];
    assert r == (a + r)[|a|..] && q == (b + q)[|b|..];
  }

  function AtomOf(h: Head): Atom
    requires h.Struct?
  {
    Atom(Hex(h.addr, ADDRESS_DIGITS), h.mod, h.name)
  }

  lemma PrintHeadInjective(a: Head, b: Head)
    requires ValidHead(a) && ValidHead(b) && PrintHead(a) == PrintHead(b)
    ensures a == b
  {
    hide AllPlain, ParseAtom, HasColons, Hex;
    if a.Struct? { PathText(AtomOf(a), true); }
    if b.Struct? { PathText(AtomOf(b), true); }
    if a.Struct? && b.Struct? {
      assert Some(AtomOf(a)) == Some(AtomOf(b));
      AddressOfDigits(a.addr);
      AddressOfDigits(b.addr);
    }
  }

  /** What may follow a complete type. */
  predicate TypeEnd(rest: string) { rest == "" || rest[0] == ',' || rest[0] == '>' }

  lemma HeadPlain(h: Head)
    requires ValidHead(h)
    ensures AllPlain(PrintHead(h))
  {
    if h.Struct? { PathText(AtomOf(h), true); }
  }

  lemma {:induction false} PrintUnique(a: MoveType, r: string, b: MoveType, q: string)
    requires ValidType(a) && ValidType(b) && TypeEnd(r) && TypeEnd(q) && Print(a) + r == Print(b) + q
    ensures a == b && r == q
    decreases a, 1
  {
    hide PrintHead, AllPlain, ValidHead, PrintList, Hex, Pow16;
    HeadPlain(a.head);
    HeadPlain(b.head);
    assert Print(a) + r == PrintHead(a.head) + (PrintArgs(a.args) + r);
    assert Print(b) + q == PrintHead(b.head) + (PrintArgs(b.args) + q);
    PlainPrefixUnique(PrintHead(a.head), PrintArgs(a.args) + r, PrintHead(b.head), PrintArgs(b.args) + q);
    PrintHeadInjective(a.head, b.head);
    assert a.args.NoArgs? ==> PrintArgs(a.args) + r == r;
    assert b.args.NoArgs? ==> PrintArgs(b.args) + q == q;
    if a.args.MoreArgs? && b.args.MoreArgs? {
      assert (PrintArgs(a.args) + r)[1..] == PrintList(a.args) + (['>'] + r);
      assert (PrintArgs(b.args) + q)[1..] == PrintList(b.args) + (['>'] + q);
      PrintListUnique(a.args, ['>'] + r, b.args, ['>'] + q);
      assert r == (['>'] + r)[1..] && q == (['>'] + q)[1..];
    }
  }

  lemma {:induction false} PrintListUnique(a: Args, r: string, b: Args, q: string)
    requires ValidArgs(a) && ValidArgs(b) && a.MoreArgs? && b.MoreArgs?
    requires r != "" && r[0] == '>' && q != "" && q[0] == '>'
    requires PrintList(a) + r == PrintList(b) + q
    ensures a == b && r == q
    decreases a, 0
  {
    hide Print, ValidType, Hex, Pow16;
    var x := if a.rest.NoArgs? then r else [','] + (PrintList(a.rest) + r);
    var y := if b.rest.NoArgs? then q else [','] + (PrintList(b.rest) + q);
    assert PrintList(a) + r == Print(a.first) + x;
    assert PrintList(b) + q == Print(b.first) + y;
    PrintUnique(a.first, x, b.first, y);
    if a.rest.MoreArgs? && b.rest.MoreArgs? {
      assert x[1..] == PrintList(a.rest) + r && y[1..] == PrintList(b.rest) + q;
      PrintListUnique(a.rest, r, b.rest, q);
    }
  }

  /** Two spellings get the same canonical text exactly when they mean the same type. */
  lemma SameTextIffSameType(a: Spelling, b: Spelling)
    requires ValidSpelling(a) && ValidSpelling(b)
    ensures Canonical(Text(a)) == Canonical(Text(b)) <==> Tree(a) == Tree(b)
  {
    ScannerPrintsTheTree(a);
    ScannerPrintsTheTree(b);
    TreeValid(a);
    TreeValid(b);
    if Print(Tree(a)) == Print(Tree(b)) {
      PrintUnique(Tree(a), "", Tree(b), "");
    }
  }

  /** Canonicalising canonical text changes nothing. */
  lemma CanonicalIsFixed(sp: Spelling)
    requires ValidSpelling(sp)
    ensures Canonical(Text(sp)).Some? && Canonical(Canonical(Text(sp)).value) == Canonical(Text(sp))
  {
    ScannerPrintsTheTree(sp);
    TreeValid(sp);
    SpelledIsPrint(Tree(sp));
    ScannerPrintsTheTree(Spelled(Tree(sp)));
  }

  /** A struct path that is not one of the expression's matches is refused, wherever it stands:
      at the end of the text, before a delimiter or before white space. */
  lemma MalformedPathRefused(atom: string, rest: string, out: string)
    requires AllPlain(atom) && HasColons(atom) && Boundary(rest)
    requires forall a :: !Matches(atom, a)
    ensures Scan(atom + rest, out, "") == None
  {
    ScanWord(atom, rest, out, "");
    assert "" + atom == atom;
    if ParseAtom(atom).Some? {
      ParseIffMatches(atom, ParseAtom(atom).value);
    }
  }

  /** White space inside an atom splits it and the pieces are glued together again:
      such text is accepted, and its result is refused on the next pass. */
  lemma GluedAtomsAreNotFixed()
    ensures Canonical("a: :b") == Some("a::b") && Canonical("a::b") == None
  {
    hide Scan;
    assert Trim("a: :b") == "a: :b" && Trim("a::b") == "a::b";
    GluedScan();
    PathlessScan();
  }

  /** Two words with white space between them come out as one. */
  lemma WordsAreGlued(a: string, b: string)
    requires ValidWord(a) && ValidWord(b)
    ensures Scan(a + (" " + b), "", "") == Some(a + b)
  {
    assert Flush("", a) == Some(a) by { assert "" + a == a; }
    assert Flush(a, b) == Some(a + b);
    assert AllPlain(a) && AllPlain(b) && Boundary(" " + b);
    hide Scan, Flush, HasColons, AllPlain;
    ScanWord(a, " " + b, "", "");
    assert "" + a == a;
    FlushAtBoundary(" " + b, "", a);
    ScanSpaces(" ", b, a);
    ScanWord(b, "", a, "");
    assert b + "" == b && "" + b == b;
    ScanEnd(a, b);
  }

  lemma GluedScan()
    ensures Scan("a: :b", "", "") == Some("a::b")
  {
    hide Scan;
    assert !HasColons("a:") && !HasColons(":b");
    WordsAreGlued("a:", ":b");
    assert "a:" + (" " + ":b") == "a: :b" && "a:" + ":b" == "a::b";
  }

  lemma ScanEnd(out: string, atom: string)
    ensures Scan("", out, atom) == Flush(out, atom)
  {
  }

  lemma PathlessScan()
    ensures Scan("a::b", "", "") == None
  {
    hide Scan, ParseAtom;
    ScanWord("a::b", "", "", "");
    assert "a::b" + "" == "a::b" && "" + "a::b" == "a::b";
    ScanEnd("", "a::b");
    ColonsAt("a::b", 1);
    NoPath();
  }

  lemma NoPath()
    ensures ParseAtom("a::b") == None
  {
    SplitAt("a", "b");
    assert "a" + "::" + "b" == "a::b";
    assert "a::b"[1] == ':' && Body("a::b") == "a::b";
  }
}
