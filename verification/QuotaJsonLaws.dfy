/** Which quota maps the two parsers read back from their JSON renderings. */
module QuotaJsonLaws {
  import opened Common
  import opened QuotaJson

  // ---- The text of a key (section 7 of RFC 8259) ----

  function ShortEscape(c: char): Option<char> {
    if c == '"' || c == '\\' || c == '/' then Some(c)
    else if c == 'b' then Some(8 as char)
    else if c == 'f' then Some(12 as char)
    else if c == 'n' then Some('\n')
    else if c == 'r' then Some('\r')
    else if c == 't' then Some('\t')
    else None
  }

  predicate IsHex(c: char) {
    IsDigit(c) || 'a' <= c <= 'f' || 'A' <= c <= 'F'
  }

  function HexOf(c: char): (h: nat)
    requires IsHex(c)
    ensures h < 16
  {
    if IsDigit(c) then (c - '0') as nat
    else if 'a' <= c <= 'f' then (c - 'a') as nat + 10
    else (c - 'A') as nat + 10
  }

  /** A backslash, `u` and four hexadecimal digits come first. */
  predicate StartsWithUnit(t: string) {
    |t| >= 6 && t[0] == '\\' && t[1] == 'u' && IsHex(t[2]) && IsHex(t[3]) && IsHex(t[4]) && IsHex(t[5])
  }

  function UnitOf(t: string): (u: nat)
    requires StartsWithUnit(t)
    ensures u < 0x1_0000
  {
    HexOf(t[2]) * 0x1000 + HexOf(t[3]) * 0x100 + HexOf(t[4]) * 0x10 + HexOf(t[5])
  }

  /** A character, and how many characters of the text stand for it. */
  datatype Piece = Piece(c: char, width: nat)

  function FirstPiece(t: string): (o: Option<Piece>)
    requires t != ""
    ensures o.Some? ==> 0 < o.value.width <= |t|
  {
    if t[0] != '\\' then
      if t[0] == '"' || t[0] < ' ' then None else Some(Piece(t[0], 1))
    else if |t| >= 2 && ShortEscape(t[1]).Some? then Some(Piece(ShortEscape(t[1]).value, 2))
    else if StartsWithUnit(t) then
      var high := UnitOf(t);
      if high < 0xD800 || 0xDFFF < high then Some(Piece(high as char, 6))
      else if high < 0xDC00 && StartsWithUnit(t[6..]) && 0xDC00 <= UnitOf(t[6..]) <= 0xDFFF then
        Some(Piece((0x1_0000 + (high - 0xD800) * 0x400 + (UnitOf(t[6..]) - 0xDC00)) as char, 12))
      else None
    else None
  }

  /** The string a text between quotes stands for, None where it stands for none. */
  function Unescaped(t: string): Option<string> {
    if t == "" then Some("")
    else
      var first := FirstPiece(t);
      if first.None? then None
      else
        var rest := Unescaped(t[first.value.width..]);
        if rest.None? then None else Some([first.value.c] + rest.value)
  }

  /** A string can stand for itself. */
  predicate Plain(k: string) {
    forall i | 0 <= i < |k| :: k[i] != '"' && k[i] != '\\' && k[i] >= ' '
  }

  /** Without a backslash a text stands for itself, and plain strings are the ones that can. */
  lemma {:induction false} UnescapedWithoutBackslash(t: string, k: string)
    requires '\\' !in t
    ensures Unescaped(t) == Some(k) <==> t == k && Plain(k)
  {
    if t != "" {
      assert '\\' !in t[1..];
      assert t == [t[0]] + t[1..];
      if k != "" {
        UnescapedWithoutBackslash(t[1..], k[1..]);
        assert k == [k[0]] + k[1..];
      }
    }
  }

  // ---- The text of a number (section 6 of RFC 8259) ----

  datatype Exp = Exp(upper: bool, sign: string, digits: string)

  /** No fraction where `frac` is empty. */
  datatype NumberParts = NumberParts(negative: bool, whole: string, frac: string, exp: Option<Exp>)

  predicate NumberOk(n: NumberParts) {
    && AllDigits(n.whole) && n.whole != "" && (|n.whole| > 1 ==> n.whole[0] != '0')
    && AllDigits(n.frac)
    && (n.exp.Some? ==> ExpOk(n.exp.value))
  }

  predicate ExpOk(e: Exp) {
    AllDigits(e.digits) && e.digits != "" && (e.sign == "" || e.sign == "+" || e.sign == "-")
  }

  type Number = n: NumberParts | NumberOk(n) witness NumberParts(false, "0", "", None)

  function ExpText(e: Exp): string {
    (if e.upper then "E" else "e") + e.sign + e.digits
  }

  function NumberText(n: Number): string {
    (if n.negative then "-" else "") + n.whole + (if n.frac == "" then "" else "." + n.frac)
    + (if n.exp.None? then "" else ExpText(n.exp.value))
  }

  /** The digits of the text, in order. */
  function DigitsOf(n: Number): (s: string)
    ensures AllDigits(s) && s != ""
  {
    n.whole + n.frac + (if n.exp.None? then "" else n.exp.value.digits)
  }

  function Signed(negative: bool, magnitude: nat): int {
    if negative then 0 - magnitude else magnitude
  }

  /** The power of ten the fraction and the exponent stand for. */
  function Scale(n: Number): int {
    (if n.exp.None? then 0 else Signed(n.exp.value.sign == "-", ValueOf(n.exp.value.digits))) - |n.frac|
  }

  /** The number is the integer. */
  predicate Denotes(n: Number, value: int) {
    var m := Signed(n.negative, ValueOf(n.whole + n.frac));
    if Scale(n) >= 0 then value == m * Pow10(Scale(n)) else value * Pow10(-Scale(n)) == m
  }

  predicate PlainNumber(n: Number) {
    n.frac == "" && n.exp.None?
  }

  /** Written as plain digits an integer has the digits of its magnitude. */
  lemma PlainDigits(n: Number, value: int)
    requires PlainNumber(n) && Denotes(n, value)
    ensures ValueOf(DigitsOf(n)) == Abs(value)
  {
    assert n.whole + n.frac == n.whole && DigitsOf(n) == n.whole;
  }

  // ---- Renderings ----

  predicate Blank(s: string) {
    forall i | 0 <= i < |s| :: s[i] == ' ' || s[i] == '\t' || s[i] == '\n' || s[i] == '\r'
  }

  /** Blanks around the key, the colon and the value (section 2 of RFC 8259). */
  datatype Gaps = Gaps(beforeKey: string, afterKey: string, beforeValue: string, afterValue: string)

  predicate BlankGaps(g: Gaps) {
    Blank(g.beforeKey) && Blank(g.afterKey) && Blank(g.beforeValue) && Blank(g.afterValue)
  }

  /** The key is rendered as the text between its quotes, the value as the number. */
  datatype Entry = Entry(key: string, text: string, value: int, number: Number, gaps: Gaps)

  predicate Rendered(e: Entry) {
    Unescaped(e.text) == Some(e.key) && Denotes(e.number, e.value) && BlankGaps(e.gaps)
  }

  function Abs(v: int): nat {
    if v < 0 then -v else v
  }

  function EntryText(e: Entry): string {
    e.gaps.beforeKey + "\"" + e.text + "\"" + e.gaps.afterKey + ":" + e.gaps.beforeValue
    + NumberText(e.number) + e.gaps.afterValue
  }

  function EntriesText(es: seq<Entry>): string {
    if es == [] then ""
    else if |es| == 1 then EntryText(es[0])
    else EntriesText(es[..|es| - 1]) + "," + EntryText(es[|es| - 1])
  }

  /** An object of integers, with any blanks. */
  function ObjectText(before: string, es: seq<Entry>, inEmpty: string, after: string): string {
    before + "{" + (if es == [] then inEmpty else EntriesText(es)) + "}" + after
  }

  function MapOf(es: seq<Entry>): map<string, int> {
    if es == [] then map[] else MapOf(es[..|es| - 1])[es[|es| - 1].key := es[|es| - 1].value]
  }

  predicate KeyChar(d: Dialect, c: char) {
    !IsDigit(c) && c != '"' && c != ',' && c != '}' && (d == Device ==> c != '{')
  }

  predicate KeyChars(d: Dialect, k: string) {
    forall i | 0 <= i < |k| :: KeyChar(d, k[i])
  }

  predicate CleanKey(d: Dialect, k: string) {
    k != "" && KeyChars(d, k)
  }

  /** A text of such characters and digits, not of digits alone. */
  predicate Legible(d: Dialect, t: string) {
    Strip(t) != "" && LegibleChars(d, t)
  }

  predicate LegibleChars(d: Dialect, t: string) {
    forall i | 0 <= i < |t| :: KeyChar(d, t[i]) || IsDigit(t[i])
  }

  function Strip(t: string): string {
    if t == "" then "" else Strip(t[..|t| - 1]) + (if IsDigit(t[|t| - 1]) then "" else [t[|t| - 1]])
  }

  function Numerals(t: string): (s: string)
    ensures AllDigits(s)
  {
    if t == "" then "" else Numerals(t[..|t| - 1]) + (if IsDigit(t[|t| - 1]) then [t[|t| - 1]] else "")
  }

  /** The digits an entry's value is read from. */
  function NumeralsOf(e: Entry): (s: string)
    ensures AllDigits(s) && s != ""
  {
    Numerals(e.text) + DigitsOf(e.number)
  }

  /** What the parsers read: keys without their digits, which come before those of the value, and
      values without sign, in 64 bits. */
  function AsRead(es: seq<Entry>): map<string, int> {
    if es == [] then map[]
    else
      var e := es[|es| - 1];
      AsRead(es[..|es| - 1])[Strip(e.text) := Wrap64(ValueOf(NumeralsOf(e)))]
  }

  // ---- Reading a rendering ----

  lemma {:induction false} ParsedConcat(d: Dialect, st: State, a: string, b: string)
    requires Proper(st)
    ensures Parsed(d, st, a + b) == Parsed(d, Parsed(d, st, a), b)
  {
    if b == [] {
      assert a + b == a;
    } else {
      var n := |b| - 1;
      assert (a + b)[..|a| + n] == a + b[..n];
      ParsedConcat(d, st, a, b[..n]);
    }
  }

  lemma ParsedOne(d: Dialect, st: State, c: char)
    requires Proper(st)
    ensures Parsed(d, st, [c]) == Next(d, st, c)
  {
    assert [c][..0] == [];
  }

  lemma {:induction false} ParsedBlank(d: Dialect, st: State, s: string)
    requires Proper(st) && !st.inKey && Blank(s)
    ensures Parsed(d, st, s) == st
  {
    if s != [] {
      ParsedBlank(d, st, s[..|s| - 1]);
    }
  }

  lemma {:induction false} ParsedKey(d: Dialect, st: State, t: string)
    requires Proper(st) && st.inKey && LegibleChars(d, t)
    ensures Parsed(d, st, t) == st.(key := st.key + Strip(t), num := st.num + Numerals(t))
  {
    if t == [] {
      assert st.key + t == st.key && st.num + t == st.num;
    } else {
      var n := |t| - 1;
      ParsedKey(d, st, t[..n]);
      assert KeyChar(d, t[n]) || IsDigit(t[n]);
      assert st.key + Strip(t) == st.key + Strip(t[..n]) + if IsDigit(t[n]) then "" else [t[n]];
      assert st.num + Numerals(t) == st.num + Numerals(t[..n]) + if IsDigit(t[n]) then [t[n]] else "";
    }
  }

  lemma {:induction false} ParsedDigits(d: Dialect, st: State, s: string)
    requires Proper(st) && AllDigits(s)
    ensures Parsed(d, st, s) == st.(num := st.num + s)
  {
    if s == [] {
      assert st.num + s == st.num;
    } else {
      var n := |s| - 1;
      ParsedDigits(d, st, s[..n]);
      assert st.num + s == st.num + s[..n] + [s[n]];
    }
  }

  lemma ParsedQuotedKey(d: Dialect, out: map<string, int>, t: string)
    requires LegibleChars(d, t)
    ensures Parsed(d, State(out, "", "", false), "\"" + t + "\"") == State(out, Strip(t), Numerals(t), false)
  {
    var st := State(out, "", "", false);
    ParsedConcat(d, st, "\"" + t, "\"");
    ParsedConcat(d, st, "\"", t);
    ParsedOne(d, st, '"');
    ParsedKey(d, State(out, "", "", true), t);
    assert "" + Strip(t) == Strip(t) && "" + Numerals(t) == Numerals(t);
    ParsedOne(d, State(out, Strip(t), Numerals(t), true), '"');
  }

  lemma ParsedEntry(d: Dialect, out: map<string, int>, e: Entry)
    requires LegibleChars(d, e.text) && BlankGaps(e.gaps)
    ensures Parsed(d, State(out, "", "", false), EntryText(e)) == State(out, Strip(e.text), NumeralsOf(e), false)
  {
    var g, st, named := e.gaps, State(out, "", "", false), State(out, Strip(e.text), Numerals(e.text), false);
    var quoted, number := "\"" + e.text + "\"", NumberText(e.number);
    var middle := g.afterKey + ":" + g.beforeValue;
    assert EntryText(e) == g.beforeKey + quoted + middle + number + g.afterValue;
    ParsedConcat(d, st, g.beforeKey + quoted + middle + number, g.afterValue);
    ParsedConcat(d, st, g.beforeKey + quoted + middle, number);
    ParsedConcat(d, st, g.beforeKey + quoted, middle);
    ParsedConcat(d, st, g.beforeKey, quoted);
    ParsedBlank(d, st, g.beforeKey);
    ParsedQuotedKey(d, out, e.text);
    ParsedMiddle(d, named, g);
    ParsedNumber(d, named, e.number);
    ParsedBlank(d, State(out, Strip(e.text), NumeralsOf(e), false), g.afterValue);
  }

  lemma ParsedMiddle(d: Dialect, st: State, g: Gaps)
    requires Proper(st) && !st.inKey && BlankGaps(g)
    ensures Parsed(d, st, g.afterKey + ":" + g.beforeValue) == st
  {
    ParsedConcat(d, st, g.afterKey + ":", g.beforeValue);
    ParsedConcat(d, st, g.afterKey, ":");
    ParsedBlank(d, st, g.afterKey);
    ParsedOne(d, st, ':');
    ParsedBlank(d, st, g.beforeValue);
  }

  /** Outside a key all but the digits of a number is passed over. */
  predicate Filler(c: char) {
    c == '-' || c == '+' || c == '.' || c == 'e' || c == 'E'
  }

  lemma {:induction false} ParsedFiller(d: Dialect, st: State, s: string)
    requires Proper(st) && !st.inKey && AllFiller(s)
    ensures Parsed(d, st, s) == st
  {
    if s != [] {
      ParsedFiller(d, st, s[..|s| - 1]);
    }
  }

  lemma FilledDigits(d: Dialect, st: State, filler: string, digits: string)
    requires Proper(st) && !st.inKey && AllDigits(digits) && AllFiller(filler)
    ensures Parsed(d, st, filler + digits) == st.(num := st.num + digits)
  {
    ParsedConcat(d, st, filler, digits);
    ParsedFiller(d, st, filler);
    ParsedDigits(d, st, digits);
  }

  lemma ParsedNumber(d: Dialect, st: State, n: Number)
    requires Proper(st) && !st.inKey
    ensures Parsed(d, st, NumberText(n)) == st.(num := st.num + DigitsOf(n))
  {
    var minus, point := if n.negative then "-" else "", if n.frac == "" then "" else ".";
    var e := if n.exp.None? then Exp(false, "", "") else n.exp.value;
    var mark := if n.exp.None? then "" else (if e.upper then "E" else "e") + e.sign;
    NumberParted(n, minus, point, mark, e.digits);
    ThreeParts(d, st, minus, n.whole, point, n.frac, mark, e.digits);
  }

  predicate AllFiller(s: string) {
    forall i | 0 <= i < |s| :: Filler(s[i])
  }

  /** More filler and digits after what was read. */
  lemma PartFollows(d: Dialect, st: State, text: string, num: string, filler: string, digits: string)
    requires Proper(st) && !st.inKey && AllDigits(num) && Parsed(d, st, text) == st.(num := num)
    requires AllFiller(filler) && AllDigits(digits)
    ensures AllDigits(num + digits) && Parsed(d, st, text + (filler + digits)) == st.(num := num + digits)
  {
    ParsedConcat(d, st, text, filler + digits);
    FilledDigits(d, st.(num := num), filler, digits);
  }

  lemma ThreeParts(d: Dialect, st: State, f: string, a: string, g: string, b: string, h: string, c: string)
    requires Proper(st) && !st.inKey && AllFiller(f) && AllFiller(g) && AllFiller(h)
    requires AllDigits(a) && AllDigits(b) && AllDigits(c)
    ensures AllDigits(st.num + (a + b + c))
    ensures Parsed(d, st, f + a + (g + b) + (h + c)) == st.(num := st.num + (a + b + c))
  {
    var text, num := f + a, st.num + a;
    FilledDigits(d, st, f, a);
    PartFollows(d, st, text, num, g, b);
    PartFollows(d, st, text + (g + b), num + b, h, c);
    FourAssociate(st.num, a, b, c);
  }

  lemma FourAssociate(x: string, a: string, b: string, c: string)
    ensures x + a + b + c == x + (a + b + c)
  {
  }

  lemma NumberParted(n: Number, minus: string, point: string, mark: string, digits: string)
    requires minus == (if n.negative then "-" else "") && point == if n.frac == "" then "" else "."
    requires if n.exp.None? then mark == digits == ""
             else mark == (if n.exp.value.upper then "E" else "e") + n.exp.value.sign && digits == n.exp.value.digits
    ensures NumberText(n) == minus + n.whole + (point + n.frac) + (mark + digits)
    ensures DigitsOf(n) == n.whole + n.frac + digits
  {
  }

  ghost predicate LegibleEntries(d: Dialect, es: seq<Entry>) {
    forall i | 0 <= i < |es| :: Legible(d, es[i].text)
  }

  ghost predicate BlankEntries(es: seq<Entry>) {
    forall i | 0 <= i < |es| :: BlankGaps(es[i].gaps)
  }

  /** Before the last entry is flushed. */
  function Pending(es: seq<Entry>): (st: State)
    requires es != []
    ensures Proper(st)
  {
    var n := |es| - 1;
    State(AsRead(es[..n]), Strip(es[n].text), NumeralsOf(es[n]), false)
  }

  lemma NamedFlushes(d: Dialect, out: map<string, int>, key: string, num: string, c: char)
    requires key != "" && num != "" && AllDigits(num) && (c == ',' || c == '}')
    ensures Next(d, State(out, key, num, false), c) == State(out[key := Wrap64(ValueOf(num))], "", "", false)
  {
  }

  lemma PendingFlushes(d: Dialect, es: seq<Entry>, c: char)
    requires es != [] && Strip(es[|es| - 1].text) != "" && (c == ',' || c == '}')
    ensures Next(d, Pending(es), c) == State(AsRead(es), "", "", false)
  {
    var n := |es| - 1;
    NamedFlushes(d, AsRead(es[..n]), Strip(es[n].text), NumeralsOf(es[n]), c);
  }

  lemma EntryFollows(d: Dialect, es: seq<Entry>, a: string)
    requires |es| >= 2 && LegibleEntries(d, es) && BlankEntries(es)
    requires Parsed(d, START, a) == Pending(es[..|es| - 1])
    ensures Parsed(d, START, a + "," + EntryText(es[|es| - 1])) == Pending(es)
  {
    var n := |es| - 1;
    var init, e := es[..n], es[n];
    assert Legible(d, es[n - 1].text) && init[n - 1] == es[n - 1];
    ParsedConcat(d, START, a + ",", EntryText(e));
    ParsedConcat(d, START, a, ",");
    ParsedOne(d, Pending(init), ',');
    PendingFlushes(d, init, ',');
    ParsedEntry(d, AsRead(init), e);
  }

  lemma {:induction false} ParsedEntries(d: Dialect, es: seq<Entry>)
    requires es != [] && LegibleEntries(d, es) && BlankEntries(es)
    ensures Parsed(d, START, EntriesText(es)) == Pending(es)
  {
    if |es| == 1 {
      ParsedEntry(d, map[], es[0]);
      assert es[..0] == [];
    } else {
      ParsedEntries(d, es[..|es| - 1]);
      EntryFollows(d, es, EntriesText(es[..|es| - 1]));
    }
  }

  lemma ParsedBody(d: Dialect, es: seq<Entry>, inEmpty: string)
    requires LegibleEntries(d, es) && BlankEntries(es) && Blank(inEmpty)
    ensures var body := if es == [] then inEmpty else EntriesText(es);
            Parsed(d, START, body + "}") == State(AsRead(es), "", "", false)
  {
    if es == [] {
      ParsedConcat(d, START, inEmpty, "}");
      ParsedBlank(d, START, inEmpty);
      ParsedOne(d, START, '}');
    } else {
      ParsedConcat(d, START, EntriesText(es), "}");
      ParsedEntries(d, es);
      assert Legible(d, es[|es| - 1].text);
      ParsedOne(d, Pending(es), '}');
      PendingFlushes(d, es, '}');
    }
  }

  lemma ParsedBraced(d: Dialect, before: string, body: string, after: string, st: State)
    requires Blank(before) && Blank(after) && Proper(st) && !st.inKey
    requires Parsed(d, START, body + "}") == st
    ensures Parsed(d, START, before + "{" + body + "}" + after) == st
  {
    ParsedConcat(d, START, before + "{" + body + "}", after);
    assert before + "{" + body + "}" == before + "{" + (body + "}");
    ParsedConcat(d, START, before + "{", body + "}");
    ParsedConcat(d, START, before, "{");
    ParsedBlank(d, START, before);
    ParsedOne(d, START, '{');
    ParsedBlank(d, st, after);
  }

  /** From keys with none of the delimiters in their text, this is what either parser reads. */
  lemma ReadsLegibleKeys(d: Dialect, before: string, es: seq<Entry>, inEmpty: string, after: string)
    requires LegibleEntries(d, es) && BlankEntries(es) && Blank(before) && Blank(inEmpty) && Blank(after)
    ensures QuotasOf(d, ObjectText(before, es, inEmpty, after)) == AsRead(es)
  {
    var body := if es == [] then inEmpty else EntriesText(es);
    ParsedBody(d, es, inEmpty);
    ParsedBraced(d, before, body, after, State(AsRead(es), "", "", false));
  }

  // ---- Nothing else is read back ----

  ghost predicate CleanState(d: Dialect, st: State) {
    KeyChars(d, st.key) && forall k | k in st.out :: CleanKey(d, k)
  }

  lemma {:induction false} ParsedIsClean(d: Dialect, st: State, s: string)
    requires Proper(st) && CleanState(d, st)
    ensures CleanState(d, Parsed(d, st, s))
  {
    if s != [] {
      ParsedIsClean(d, st, s[..|s| - 1]);
    }
  }

  ghost predicate DistinctKeys(es: seq<Entry>) {
    forall i, j | 0 <= i < j < |es| :: es[i].key != es[j].key
  }

  lemma {:induction false} LooksUp(es: seq<Entry>, i: nat)
    requires i < |es| && DistinctKeys(es)
    ensures es[i].key in MapOf(es) && MapOf(es)[es[i].key] == es[i].value
  {
    var n := |es| - 1;
    if i < n {
      LooksUp(es[..n], i);
    }
  }

  lemma {:induction false} KeysComeFrom(es: seq<Entry>, k: string) returns (i: nat)
    requires k in MapOf(es)
    ensures i < |es| && es[i].key == k
  {
    var n := |es| - 1;
    if k == es[n].key {
      return n;
    }
    i := KeysComeFrom(es[..n], k);
  }

  lemma {:induction false} ReadKeys(es: seq<Entry>, i: nat)
    requires i < |es|
    ensures Strip(es[i].text) in AsRead(es)
  {
    var n := |es| - 1;
    if i < n {
      ReadKeys(es[..n], i);
    }
  }

  lemma {:induction false} StripKeepsLegible(d: Dialect, t: string)
    requires KeyChars(d, t)
    ensures Strip(t) == t && Numerals(t) == ""
  {
    if t != "" {
      var n := |t| - 1;
      var init, c := t[..n], t[n];
      assert KeyChar(d, c) && t == init + [c];
      StripKeepsLegible(d, init);
      assert Strip(t) == Strip(init) + [c] && Numerals(t) == Numerals(init) + "";
    }
  }

  lemma {:induction false} StripConcat(a: string, b: string)
    ensures Strip(a + b) == Strip(a) + Strip(b)
  {
    if b == "" {
      assert a + b == a;
    } else {
      var n := |b| - 1;
      assert (a + b)[..|a| + n] == a + b[..n];
      StripConcat(a, b[..n]);
    }
  }

  lemma StripOfTwo(t: string)
    requires |t| >= 2 && !IsDigit(t[0]) && !IsDigit(t[1])
    ensures |Strip(t)| >= 2
  {
    StripConcat(t[..2], t[2..]);
    assert t == t[..2] + t[2..];
    assert t[..2][..1][..0] == "";
  }

  lemma StripOfOne(c: char)
    ensures Strip([c]) == if IsDigit(c) then "" else [c]
  {
    assert [c][..0] == "";
  }

  lemma UnitIsLegible(d: Dialect, t: string)
    requires StartsWithUnit(t)
    ensures LegibleChars(d, t[..6])
  {
    assert forall c | IsHex(c) :: KeyChar(d, c) || IsDigit(c);
  }

  lemma EscapeIsLegible(d: Dialect, t: string)
    requires t != "" && t[0] == '\\' && FirstPiece(t).Some? && KeyChar(d, FirstPiece(t).value.c)
    ensures FirstPiece(t).value.width >= 2 && !IsDigit(t[1]) && LegibleChars(d, t[..FirstPiece(t).value.width])
  {
    var w := FirstPiece(t).value.width;
    if w > 2 {
      UnitIsLegible(d, t);
    }
    if w > 6 {
      UnitIsLegible(d, t[6..]);
      assert t[..12] == t[..6] + t[6..][..6];
    }
  }

  /** A piece's characters are as legible as the one it stands for; an escape is longer. */
  lemma PieceIsLegible(d: Dialect, t: string)
    requires t != "" && FirstPiece(t).Some? && KeyChar(d, FirstPiece(t).value.c)
    ensures var first := t[..FirstPiece(t).value.width];
            && LegibleChars(d, first) && |Strip(first)| >= 1
            && (t[0] == '\\' ==> |Strip(first)| >= 2)
  {
    var first := t[..FirstPiece(t).value.width];
    if t[0] == '\\' {
      EscapeIsLegible(d, t);
      StripOfTwo(first);
    } else {
      assert first == [t[0]];
      StripOfOne(t[0]);
    }
  }

  /** Where the key is clean, its text is legible; stripped of digits it is no shorter than the key,
      and longer where it has an escape. */
  lemma {:induction false} TextIsLegible(d: Dialect, t: string, k: string)
    requires Unescaped(t) == Some(k) && KeyChars(d, k)
    ensures LegibleChars(d, t) && |Strip(t)| >= |k|
    ensures '\\' in t ==> |Strip(t)| > |k|
  {
    if t != "" {
      var w := FirstPiece(t).value.width;
      assert KeyChar(d, k[0]) && k[0] == FirstPiece(t).value.c;
      assert Unescaped(t[w..]) == Some(k[1..]);
      TextIsLegible(d, t[w..], k[1..]);
      PieceIsLegible(d, t);
      assert t == t[..w] + t[w..];
      StripConcat(t[..w], t[w..]);
    }
  }

  ghost predicate Escaped(e: Entry) {
    '\\' in e.text
  }

  /** The escaped entry with the longest stripped text. */
  lemma LongestEscaped(es: seq<Entry>, i: nat) returns (m: nat)
    requires i < |es| && Escaped(es[i])
    ensures m < |es| && Escaped(es[m])
    ensures forall j | 0 <= j < |es| && Escaped(es[j]) :: |Strip(es[j].text)| <= |Strip(es[m].text)|
  {
    m := i;
    for j := 0 to |es|
      invariant m < |es| && Escaped(es[m])
      invariant forall l | 0 <= l < j && Escaped(es[l]) :: |Strip(es[l].text)| <= |Strip(es[m].text)|
    {
      if Escaped(es[j]) && |Strip(es[j].text)| > |Strip(es[m].text)| {
        m := j;
      }
    }
  }

  lemma {:induction false} StripKeepsBackslash(t: string)
    requires '\\' in t
    ensures '\\' in Strip(t)
  {
    var n := |t| - 1;
    if t[n] != '\\' {
      StripKeepsBackslash(t[..n]);
    }
  }

  ghost predicate CleanEntries(d: Dialect, es: seq<Entry>) {
    forall i | 0 <= i < |es| :: CleanKey(d, es[i].key)
  }

  ghost predicate RenderedEntries(es: seq<Entry>) {
    forall i | 0 <= i < |es| :: Rendered(es[i])
  }

  /** A key read from the longest escaped text would need a longer one. */
  lemma EscapesAreMisread(d: Dialect, es: seq<Entry>, i: nat)
    requires CleanEntries(d, es) && RenderedEntries(es)
    requires i < |es| && Escaped(es[i])
    ensures AsRead(es) != MapOf(es)
  {
    var m := LongestEscaped(es, i);
    var read := Strip(es[m].text);
    ReadKeys(es, m);
    if read in MapOf(es) {
      var j := KeysComeFrom(es, read);
      StripKeepsBackslash(es[m].text);
      assert Rendered(es[j]) && CleanKey(d, es[j].key);
      if !Escaped(es[j]) {
        UnescapedWithoutBackslash(es[j].text, es[j].key);
      }
      TextIsLegible(d, es[j].text, es[j].key);
    }
  }

  lemma CleanIsLegible(d: Dialect, es: seq<Entry>)
    requires CleanEntries(d, es) && RenderedEntries(es)
    ensures LegibleEntries(d, es) && BlankEntries(es)
  {
    forall i | 0 <= i < |es|
      ensures Legible(d, es[i].text) && BlankGaps(es[i].gaps)
    {
      assert Rendered(es[i]) && CleanKey(d, es[i].key);
      TextIsLegible(d, es[i].text, es[i].key);
    }
  }

  /** The digits of a number's text, read as one number in 64 bits. */
  function ReadValue(n: Number): int {
    Wrap64(ValueOf(DigitsOf(n)))
  }

  ghost predicate Readable(d: Dialect, e: Entry) {
    CleanKey(d, e.key) && !Escaped(e) && e.value == ReadValue(e.number)
  }

  lemma UnescapedIsRead(d: Dialect, e: Entry)
    requires CleanKey(d, e.key) && Rendered(e) && !Escaped(e)
    ensures Strip(e.text) == e.key && NumeralsOf(e) == DigitsOf(e.number)
  {
    UnescapedWithoutBackslash(e.text, e.key);
    StripKeepsLegible(d, e.key);
  }

  ghost predicate UnescapedEntries(d: Dialect, es: seq<Entry>) {
    forall i | 0 <= i < |es| :: CleanKey(d, es[i].key) && Rendered(es[i]) && !Escaped(es[i])
  }

  lemma AsReadNext(d: Dialect, es: seq<Entry>)
    requires es != [] && UnescapedEntries(d, es)
    ensures var n := |es| - 1;
            AsRead(es) == AsRead(es[..n])[es[n].key := ReadValue(es[n].number)]
  {
    UnescapedIsRead(d, es[|es| - 1]);
  }

  lemma WithoutLast(d: Dialect, es: seq<Entry>)
    requires es != [] && DistinctKeys(es) && UnescapedEntries(d, es)
    ensures var init := es[..|es| - 1];
            && DistinctKeys(init) && UnescapedEntries(d, init)
            && forall i | 0 <= i < |init| :: init[i] == es[i] && es[i].key != es[|es| - 1].key
  {
  }

  lemma {:induction false} ReadsValues(d: Dialect, es: seq<Entry>, i: nat)
    requires i < |es| && DistinctKeys(es) && UnescapedEntries(d, es)
    ensures es[i].key in AsRead(es) && AsRead(es)[es[i].key] == ReadValue(es[i].number)
  {
    WithoutLast(d, es);
    AsReadNext(d, es);
    if i < |es| - 1 {
      ReadsValues(d, es[..|es| - 1], i);
    }
  }

  lemma {:induction false} SameMaps(d: Dialect, es: seq<Entry>)
    requires UnescapedEntries(d, es) && forall i | 0 <= i < |es| :: es[i].value == ReadValue(es[i].number)
    ensures AsRead(es) == MapOf(es)
  {
    if es != [] {
      AsReadNext(d, es);
      SameMaps(d, es[..|es| - 1]);
    }
  }

  lemma CleanReading(d: Dialect, es: seq<Entry>)
    requires DistinctKeys(es) && CleanEntries(d, es) && RenderedEntries(es)
    ensures AsRead(es) == MapOf(es) <==> forall i | 0 <= i < |es| :: Readable(d, es[i])
  {
    if i :| 0 <= i < |es| && Escaped(es[i]) {
      EscapesAreMisread(d, es, i);
      assert !Readable(d, es[i]);
    } else {
      assert UnescapedEntries(d, es) by {
        assert forall i | 0 <= i < |es| :: CleanKey(d, es[i].key) && Rendered(es[i]);
      }
      forall i | 0 <= i < |es| && AsRead(es) == MapOf(es)
        ensures Readable(d, es[i])
      {
        LooksUp(es, i);
        ReadsValues(d, es, i);
      }
      if forall i | 0 <= i < |es| :: Readable(d, es[i]) {
        assert forall i | 0 <= i < |es| :: Readable(d, es[i]) ==> es[i].value == ReadValue(es[i].number);
        SameMaps(d, es);
      }
    }
  }

  lemma ReadableIsClean(d: Dialect, es: seq<Entry>)
    requires forall i | 0 <= i < |es| :: Readable(d, es[i])
    ensures CleanEntries(d, es)
  {
    assert forall i | 0 <= i < |es| :: Readable(d, es[i]) ==> CleanKey(d, es[i].key);
  }

  /** A map of distinct keys is read back from its rendering exactly when every key is non-empty, free
      of digits, quotes, commas and braces (the portal allows `{`) and rendered without an escape, and
      every value is what the digits of its number's text, read as one number, make in 64 bits. */
  lemma QuotasRoundTrip(d: Dialect, before: string, es: seq<Entry>, inEmpty: string, after: string)
    requires DistinctKeys(es) && RenderedEntries(es) && Blank(before) && Blank(inEmpty) && Blank(after)
    ensures QuotasOf(d, ObjectText(before, es, inEmpty, after)) == MapOf(es)
            <==> forall i | 0 <= i < |es| :: Readable(d, es[i])
  {
    var s := ObjectText(before, es, inEmpty, after);
    if forall i | 0 <= i < |es| :: Readable(d, es[i]) {
      ReadableIsClean(d, es);
    }
    if QuotasOf(d, s) == MapOf(es) {
      ParsedIsClean(d, START, s);
      forall i | 0 <= i < |es|
        ensures CleanKey(d, es[i].key)
      {
        LooksUp(es, i);
      }
    }
    if CleanEntries(d, es) {
      CleanIsLegible(d, es);
      ReadsLegibleKeys(d, before, es, inEmpty, after);
      CleanReading(d, es);
    }
  }

  /** A clean key has a rendering without escapes exactly when no character of it must be escaped:
      no quote, backslash or control character (section 7 of RFC 8259). */
  lemma KeysThatCanBeRead(d: Dialect, k: string)
    requires CleanKey(d, k)
    ensures Plain(k) <==> exists t :: Unescaped(t) == Some(k) && '\\' !in t
  {
    if Plain(k) {
      assert '\\' !in k;
      UnescapedWithoutBackslash(k, k);
    }
    if t :| Unescaped(t) == Some(k) && '\\' !in t {
      UnescapedWithoutBackslash(t, k);
    }
  }

  /** Written as plain digits, that is what 64 bits make of its magnitude. */
  lemma PlainValuesRead(n: Number, value: int)
    requires PlainNumber(n) && Denotes(n, value)
    ensures value == ReadValue(n) <==> value == Wrap64(Abs(value))
  {
    PlainDigits(n, value);
  }

  /** A hundred can be written so that twelve, or a thousand, is read. */
  lemma HundredsMisread(digits: string, whole: string, zero: string)
    requires digits == "2" && whole == "1" && zero == "0"
    ensures var e := NumberParts(false, whole, "", Some(Exp(false, "", digits)));
            Denotes(e, 100) && ReadValue(e) == 12
    ensures var f := NumberParts(false, whole + zero + zero, zero, None);
            Denotes(f, 100) && ReadValue(f) == 1000
  {
    var e := NumberParts(false, whole, "", Some(Exp(false, "", digits)));
    var f := NumberParts(false, whole + zero + zero, zero, None);
    OneDigit(digits);
    OneDigit(whole);
    OneDigit(zero);
    assert e.whole + e.frac == whole && DigitsOf(e) == whole + digits;
    OneMoreDigit(whole, digits[0]);
    assert Pow10(2) == 10 * Pow10(1) && Pow10(1) == 10 * Pow10(0);
    assert DigitsOf(f) == whole + zero + zero + zero == f.whole + f.frac;
    OneMoreDigit(whole, zero[0]);
    OneMoreDigit(whole + zero, zero[0]);
    OneMoreDigit(whole + zero + zero, zero[0]);
  }

  lemma OneDigit(s: string)
    requires |s| == 1 && IsDigit(s[0])
    ensures ValueOf(s) == DigitOf(s[0])
  {
    assert s[..0] == "";
  }

  lemma OneMoreDigit(s: string, c: char)
    requires AllDigits(s) && IsDigit(c)
    ensures ValueOf(s + [c]) == ValueOf(s) * 10 + DigitOf(c)
  {
    assert (s + [c])[..|s|] == s;
  }

  /** For a 64-bit value that is: not negative, or the least one. */
  lemma ReadableValues(v: int)
    requires -TWO63 <= v < TWO63
    ensures v == Wrap64(Abs(v)) <==> v >= 0 || v == -TWO63
  {
  }

  lemma {:induction false} StripKeepsBrace(t: string)
    requires '{' in t
    ensures '{' in Strip(t)
  {
    var n := |t| - 1;
    if t[n] != '{' {
      StripKeepsBrace(t[..n]);
    }
  }

  /** On texts the portal reads, the two parsers agree exactly when no key has an opening brace in its
      text. */
  lemma DialectsAgree(before: string, es: seq<Entry>, inEmpty: string, after: string)
    requires BlankEntries(es) && Blank(before) && Blank(inEmpty) && Blank(after)
    requires LegibleEntries(Portal, es)
    ensures var s := ObjectText(before, es, inEmpty, after);
            QuotasOf(Device, s) == QuotasOf(Portal, s) <==> forall i | 0 <= i < |es| :: '{' !in es[i].text
  {
    var s := ObjectText(before, es, inEmpty, after);
    ReadsLegibleKeys(Portal, before, es, inEmpty, after);
    if forall i | 0 <= i < |es| :: '{' !in es[i].text {
      assert forall i | 0 <= i < |es| :: Legible(Portal, es[i].text) && '{' !in es[i].text ==> Legible(Device, es[i].text);
      ReadsLegibleKeys(Device, before, es, inEmpty, after);
    }
    if QuotasOf(Device, s) == QuotasOf(Portal, s) {
      ParsedIsClean(Device, START, s);
      forall i | 0 <= i < |es|
        ensures '{' !in es[i].text
      {
        ReadKeys(es, i);
        assert CleanKey(Device, Strip(es[i].text));
        if '{' in es[i].text {
          StripKeepsBrace(es[i].text);
          assert false;
        }
      }
    }
  }

  // ---- A comma in a key ----

  lemma {:induction false} IgnoredOutside(d: Dialect, st: State, k: string)
    requires Proper(st) && !st.inKey && KeyChars(d, k)
    ensures Parsed(d, st, k) == st
  {
    if k != [] {
      var n := |k| - 1;
      IgnoredOutside(d, st, k[..n]);
      assert KeyChar(d, k[n]);
    }
  }

  lemma KeyIsTaken(d: Dialect, st: State, k: string)
    requires Proper(st) && st.inKey && KeyChars(d, k)
    ensures Parsed(d, st, k) == st.(key := st.key + k)
  {
    StripKeepsLegible(d, k);
    ParsedKey(d, st, k);
    assert st.num + "" == st.num;
  }

  /** The text up to the comma, in either dialect. */
  lemma UpToComma(d: Dialect, a: string)
    requires KeyChars(d, a)
    ensures Parsed(d, START, "{\"" + a + ",") == State(map[], "", "", d == Portal)
  {
    ParsedConcat(d, START, "{\"" + a, ",");
    ParsedConcat(d, START, "{\"", a);
    ParsedConcat(d, START, "{", "\"");
    ParsedOne(d, START, '{');
    ParsedOne(d, START, '"');
    KeyIsTaken(d, State(map[], "", "", true), a);
    ParsedOne(d, State(map[], "" + a, "", true), ',');
  }

  /** The rest of it: a number ends the entry of the key read so far. */
  lemma NumberEnds(d: Dialect, st: State, digits: string)
    requires Proper(st) && st.key != "" && st.num == "" && AllDigits(digits) && digits != ""
    ensures Parsed(d, st, digits + "}").out == st.out[st.key := Wrap64(ValueOf(digits))]
  {
    ParsedConcat(d, st, digits, "}");
    ParsedDigits(d, st, digits);
    assert "" + digits == digits;
    ParsedOne(d, st.(num := digits), '}');
  }

  lemma QuoteColon(d: Dialect, st: State)
    requires Proper(st)
    ensures Parsed(d, st, "\":") == Next(d, Next(d, st, '"'), ':')
  {
    assert "\":" == "\"" + ":";
    ParsedConcat(d, st, "\"", ":");
    ParsedOne(d, st, '"');
    ParsedOne(d, Next(d, st, '"'), ':');
  }

  lemma ThreeTexts(d: Dialect, st: State, a: string, b: string, c: string)
    requires Proper(st)
    ensures Parsed(d, st, a + (b + c)) == Parsed(d, Parsed(d, Parsed(d, st, a), b), c)
  {
    ParsedConcat(d, st, a, b + c);
    ParsedConcat(d, Parsed(d, st, a), b, c);
  }

  lemma DeviceAfterComma(b: string, digits: string)
    requires KeyChars(Device, b) && AllDigits(digits) && digits != ""
    ensures Parsed(Device, State(map[], "", "", false), b + ("\":" + (digits + "}"))).out == map[":" := Wrap64(ValueOf(digits))]
  {
    var st := State(map[], "", "", false);
    ThreeTexts(Device, st, b, "\":", digits + "}");
    IgnoredOutside(Device, st, b);
    QuoteColon(Device, st);
    assert "" + [':'] == ":";
    assert Next(Device, Next(Device, st, '"'), ':') == State(map[], ":", "", true);
    NumberEnds(Device, State(map[], ":", "", true), digits);
  }

  lemma PortalAfterComma(b: string, digits: string)
    requires CleanKey(Portal, b) && AllDigits(digits) && digits != ""
    ensures Parsed(Portal, State(map[], "", "", true), b + ("\":" + (digits + "}"))).out == map[b := Wrap64(ValueOf(digits))]
  {
    var st := State(map[], "", "", true);
    ThreeTexts(Portal, st, b, "\":", digits + "}");
    KeyIsTaken(Portal, st, b);
    assert "" + b == b;
    QuoteColon(Portal, State(map[], b, "", true));
    NumberEnds(Portal, State(map[], b, "", false), digits);
  }

  /** A comma inside a key starts it anew in both dialects. The portal reads on inside the quotes; for the
      device they are closed, so that the next quote opens the key, and the colon is part of it. */
  lemma CommaInAKey(a: string, b: string, digits: string)
    requires KeyChars(Device, a) && CleanKey(Device, b) && AllDigits(digits) && digits != ""
    ensures var s, v := "{\"" + a + "," + (b + ("\":" + (digits + "}"))), Wrap64(ValueOf(digits));
            QuotasOf(Device, s) == map[":" := v] && QuotasOf(Portal, s) == map[b := v]
  {
    var head, tail := "{\"" + a + ",", b + ("\":" + (digits + "}"));
    assert KeyChars(Portal, a) && CleanKey(Portal, b) by {
      assert forall c | KeyChar(Device, c) :: KeyChar(Portal, c);
    }
    UpToComma(Device, a);
    UpToComma(Portal, a);
    ParsedConcat(Device, START, head, tail);
    ParsedConcat(Portal, START, head, tail);
    DeviceAfterComma(b, digits);
    PortalAfterComma(b, digits);
  }

  // ---- Texts without integers ----

  /** Without a digit nothing is read. */
  lemma {:induction false} NothingWithoutDigits(d: Dialect, s: string)
    requires forall i | 0 <= i < |s| :: !IsDigit(s[i])
    ensures QuotasOf(d, s) == map[] && Parsed(d, START, s).num == ""
  {
    if s != [] {
      NothingWithoutDigits(d, s[..|s| - 1]);
    }
  }
}
