/** Hand-written JSON arrays of strings: one printer, two parsers. */
module StringArrays {
  import opened Text

  // ---- The printer ----

  function Quoted(s: string): string {
    "\"" + s + "\""
  }

  function Joined(items: seq<string>): string {
    if items == [] then ""
    else if |items| == 1 then Quoted(items[0])
    else Joined(items[..|items| - 1]) + "," + Quoted(items[|items| - 1])
  }

  function Marshalled(items: seq<string>): string {
    "[" + Joined(items) + "]"
  }

  method MarshalArr(items: seq<string>) returns (out: string)
    ensures out == Marshalled(items)
  {
    if |items| == 0 {
      return "[]";
    }
    out := "[";
    for i := 0 to |items|
      invariant out == "[" + Joined(items[..i])
    {
      assert items[..i + 1][..i] == items[..i];
      ghost var before := Joined(items[..i]);
      if i > 0 {
        out := out + ",";
      }
      out := out + "\"" + items[i] + "\"";
      assert i > 0 ==> out == "[" + (before + "," + Quoted(items[i]));
    }
    assert items[..|items|] == items;
    out := out + "]";
  }

  // ---- The scope parser ----

  datatype Scan = Scan(out: seq<string>, inside: bool, cur: string)

  function ScanChar(st: Scan, c: char): Scan {
    if c == '"' then
      if st.inside && st.cur != "" then Scan(st.out + [st.cur], false, "") else st.(inside := !st.inside)
    else if st.inside then st.(cur := st.cur + [c])
    else st
  }

  function ScanAll(st: Scan, s: string): Scan {
    if s == [] then st else ScanChar(ScanAll(st, s[..|s| - 1]), s[|s| - 1])
  }

  const START := Scan([], false, "")

  function ScopeOf(s: string): seq<string> {
    if s == "" || s == "[]" then [] else ScanAll(START, s).out
  }

  method ParseScope(s: string) returns (out: seq<string>)
    ensures out == ScopeOf(s)
  {
    if s == "" || s == "[]" {
      return [];
    }
    out := [];
    var inside, cur := false, "";
    for i := 0 to |s|
      invariant Scan(out, inside, cur) == ScanAll(START, s[..i])
    {
      assert s[..i + 1][..i] == s[..i];
      var c := s[i];
      if c == '"' {
        inside := !inside;
        if !inside && cur != "" {
          out := out + [cur];
          cur := "";
        }
        continue;
      }
      if inside {
        cur := cur + [c];
      }
    }
    assert s[..|s|] == s;
  }

  // ---- The key parser ----

  function TrimPrefix(s: string, c: char): string {
    if s != [] && s[0] == c then s[1..] else s
  }

  function TrimSuffix(s: string, c: char): string {
    if s != [] && s[|s| - 1] == c then s[..|s| - 1] else s
  }

  /** The pieces between commas, from the end. */
  function Split(s: string): (parts: seq<string>)
    ensures parts != []
    ensures forall i | 0 <= i < |parts| :: ',' !in parts[i]
  {
    if s == [] then [""]
    else
      var parts := Split(s[..|s| - 1]);
      var n := |parts| - 1;
      if s[|s| - 1] == ',' then parts + [""] else parts[..n] + [parts[n] + [s[|s| - 1]]]
  }

  function TrimQuotesLeft(s: string): (t: string)
    ensures t != [] ==> t[0] != '"'
    ensures forall c | c in t :: c in s
  {
    if s != [] && s[0] == '"' then TrimQuotesLeft(s[1..]) else s
  }

  function TrimQuotesRight(s: string): (t: string)
    ensures t <= s && (t != [] ==> t[|t| - 1] != '"')
  {
    if s != [] && s[|s| - 1] == '"' then TrimQuotesRight(s[..|s| - 1]) else s
  }

  function Unquoted(part: string): string {
    TrimQuotesRight(TrimQuotesLeft(TrimSpace(part)))
  }

  function NonEmpty(parts: seq<string>): seq<string> {
    if parts == [] then []
    else
      var p := Unquoted(parts[|parts| - 1]);
      NonEmpty(parts[..|parts| - 1]) + (if p != "" then [p] else [])
  }

  function Inner(s: string): string {
    TrimSuffix(TrimPrefix(TrimSpace(s), '['), ']')
  }

  function ArrayOf(s: string): seq<string> {
    if Inner(s) == "" then [] else NonEmpty(Split(Inner(s)))
  }

  method ParseJSONArr(s: string) returns (out: seq<string>)
    ensures out == ArrayOf(s)
  {
    var t := TrimSpace(s);
    t := TrimPrefix(t, '[');
    t := TrimSuffix(t, ']');
    if t == "" {
      return [];
    }
    var parts := Split(t);
    out := [];
    for i := 0 to |parts|
      invariant out == NonEmpty(parts[..i])
    {
      assert parts[..i + 1][..i] == parts[..i];
      var p := TrimSpace(parts[i]);
      p := TrimQuotesRight(TrimQuotesLeft(p));
      if p != "" {
        out := out + [p];
      }
    }
    assert parts[..|parts|] == parts;
  }

  // ---- The scope parser undoes the printer ----

  ghost predicate ScopeItem(s: string) {
    s != "" && '"' !in s
  }

  lemma {:induction false} ScanConcat(st: Scan, a: string, b: string)
    ensures ScanAll(st, a + b) == ScanAll(ScanAll(st, a), b)
  {
    if b == [] {
      assert a + b == a;
    } else {
      var n := |b| - 1;
      assert (a + b)[..|a| + n] == a + b[..n];
      ScanConcat(st, a, b[..n]);
    }
  }

  lemma {:induction false} ScanInside(st: Scan, s: string)
    requires st.inside && '"' !in s
    ensures ScanAll(st, s) == st.(cur := st.cur + s)
  {
    if s == [] {
      assert st.cur + s == st.cur;
    } else {
      var n := |s| - 1;
      ScanInside(st, s[..n]);
      assert s[n] in s && s == s[..n] + [s[n]];
    }
  }

  lemma ScanOne(st: Scan, c: char)
    ensures ScanAll(st, [c]) == ScanChar(st, c)
  {
    assert [c][..0] == [];
  }

  lemma ScanQuoted(out: seq<string>, s: string)
    requires ScopeItem(s)
    ensures ScanAll(Scan(out, false, ""), Quoted(s)) == Scan(out + [s], false, "")
  {
    var st := Scan(out, false, "");
    ScanConcat(st, "\"" + s, "\"");
    ScanConcat(st, "\"", s);
    ScanOne(st, '"');
    ScanInside(Scan(out, true, ""), s);
    assert "" + s == s;
    ScanOne(Scan(out, true, s), '"');
  }

  lemma {:induction false} ScanJoined(items: seq<string>)
    requires forall i | 0 <= i < |items| :: ScopeItem(items[i])
    ensures ScanAll(Scan([], false, ""), Joined(items)) == Scan(items, false, "")
  {
    if items == [] {
    } else {
      var n := |items| - 1;
      ScanJoined(items[..n]);
      ScanQuoted(items[..n], items[n]);
      assert items[..n] + [items[n]] == items;
      if n > 0 {
        var st := Scan([], false, "");
        ScanConcat(st, Joined(items[..n]) + ",", Quoted(items[n]));
        ScanConcat(st, Joined(items[..n]), ",");
        ScanOne(Scan(items[..n], false, ""), ',');
      } else {
        assert items[..n] == [];
      }
    }
  }

  lemma {:induction false} ScannedAreItems(s: string)
    ensures var st := ScanAll(START, s);
            '"' !in st.cur && forall i | 0 <= i < |st.out| :: ScopeItem(st.out[i])
  {
    if s != [] {
      ScannedAreItems(s[..|s| - 1]);
    }
  }

  /** Printing and parsing the scopes gives them back exactly when none is empty or has a quote. */
  lemma ScopeRoundTrip(items: seq<string>)
    ensures ScopeOf(Marshalled(items)) == items <==> forall i | 0 <= i < |items| :: ScopeItem(items[i])
  {
    var s := Marshalled(items);
    ScannedAreItems(s);
    if (forall i | 0 <= i < |items| :: ScopeItem(items[i])) && items != [] {
      ScanConcat(START, "[" + Joined(items), "]");
      ScanConcat(START, "[", Joined(items));
      ScanOne(START, '[');
      ScanJoined(items);
      ScanOne(Scan(items, false, ""), ']');
      assert |Joined(items)| >= 2;
    }
  }

  // ---- So does the key parser ----

  ghost predicate ArrayItem(s: string) {
    s != "" && ',' !in s && s[0] != '"' && s[|s| - 1] != '"'
  }

  lemma UnquotedIs(s: string)
    requires ArrayItem(s)
    ensures Unquoted(Quoted(s)) == s
  {
    var q := Quoted(s);
    AlreadyTrimmed(q);
    assert q[1..] == s + "\"";
    var r := s + "\"";
    assert r[0] == s[0] && TrimQuotesLeft(r) == r && TrimQuotesLeft(q) == r;
    assert r[..|r| - 1] == s && TrimQuotesRight(s) == s && TrimQuotesRight(r) == s;
  }

  /** The last piece goes on. */
  function Longer(parts: seq<string>, more: string): seq<string>
    requires parts != []
  {
    parts[..|parts| - 1] + [parts[|parts| - 1] + more]
  }

  lemma SplitOne(a: string, c: char)
    requires c != ','
    ensures Split(a + [c]) == Longer(Split(a), [c])
  {
    assert (a + [c])[..|a|] == a;
  }

  lemma LongerTwice(parts: seq<string>, x: string, y: string)
    requires parts != []
    ensures Longer(parts, x) != [] && Longer(Longer(parts, x), y) == Longer(parts, x + y)
    ensures Longer(parts, "") == parts
  {
    assert parts[|parts| - 1] + x + y == parts[|parts| - 1] + (x + y);
    assert parts[|parts| - 1] + "" == parts[|parts| - 1];
  }

  lemma {:induction false} SplitAppend(a: string, b: string)
    requires ',' !in b
    ensures Split(a + b) == Longer(Split(a), b)
  {
    if b == [] {
      assert a + b == a;
      LongerTwice(Split(a), "", "");
    } else {
      var m := |b| - 1;
      var init, c := b[..m], b[m];
      assert c in b && a + b == (a + init) + [c] && init + [c] == b;
      SplitAppend(a, init);
      SplitOne(a + init, c);
      LongerTwice(Split(a), init, [c]);
    }
  }

  function QuotedAll(items: seq<string>): (qs: seq<string>)
    ensures |qs| == |items|
  {
    if items == [] then [] else QuotedAll(items[..|items| - 1]) + [Quoted(items[|items| - 1])]
  }

  lemma {:induction false} SplitJoined(items: seq<string>)
    requires items != [] && forall i | 0 <= i < |items| :: ',' !in items[i]
    ensures Split(Joined(items)) == QuotedAll(items)
  {
    var n := |items| - 1;
    var q := Quoted(items[n]);
    if n == 0 {
      assert Split([]) == [""] && [] + q == q && "" + q == q;
      SplitAppend([], q);
      assert items[..0] == [];
    } else {
      SplitJoined(items[..n]);
      var a := Joined(items[..n]);
      assert (a + ",")[..|a|] == a;
      assert Split(a + ",") == QuotedAll(items[..n]) + [""];
      SplitAppend(a + ",", q);
      assert "" + q == q;
    }
  }

  lemma NonEmptyOne(parts: seq<string>, part: string)
    requires Unquoted(part) != ""
    ensures NonEmpty(parts + [part]) == NonEmpty(parts) + [Unquoted(part)]
  {
    assert (parts + [part])[..|parts|] == parts;
  }

  lemma {:induction false} NonEmptyQuoted(items: seq<string>)
    requires forall i | 0 <= i < |items| :: ArrayItem(items[i])
    ensures NonEmpty(QuotedAll(items)) == items
  {
    if items != [] {
      var n := |items| - 1;
      NonEmptyQuoted(items[..n]);
      var qs := QuotedAll(items[..n]);
      UnquotedIs(items[n]);
      NonEmptyOne(qs, Quoted(items[n]));
      assert items == items[..n] + [items[n]];
    }
  }

  lemma InnerOfMarshalled(items: seq<string>)
    ensures Inner(Marshalled(items)) == Joined(items)
  {
    var s := Marshalled(items);
    AlreadyTrimmed(s);
    assert s[1..] == Joined(items) + "]";
    assert (Joined(items) + "]")[..|Joined(items)|] == Joined(items);
  }

  lemma {:induction false} TrimLeftKeeps(s: string)
    ensures forall c | c in TrimLeft(s) :: c in s
  {
    if s != [] && IsSpace(s[0]) {
      TrimLeftKeeps(s[1..]);
    }
  }

  lemma {:induction false} NonEmptyAreItems(parts: seq<string>)
    requires forall i | 0 <= i < |parts| :: ',' !in parts[i]
    ensures forall i | 0 <= i < |NonEmpty(parts)| :: ArrayItem(NonEmpty(parts)[i])
  {
    if parts != [] {
      var last := parts[|parts| - 1];
      NonEmptyAreItems(parts[..|parts| - 1]);
      TrimLeftKeeps(last);
      assert TrimSpace(last) <= TrimLeft(last);
      var l := TrimQuotesLeft(TrimSpace(last));
      assert Unquoted(last) <= l;
      assert ',' !in l;
    }
  }

  /** The other parser gives them back exactly when none is empty, has a comma, or begins or ends with
      a quote. */
  lemma ArrayRoundTrip(items: seq<string>)
    ensures ArrayOf(Marshalled(items)) == items <==> forall i | 0 <= i < |items| :: ArrayItem(items[i])
  {
    InnerOfMarshalled(items);
    NonEmptyAreItems(Split(Joined(items)));
    if (forall i | 0 <= i < |items| :: ArrayItem(items[i])) && items != [] {
      SplitJoined(items);
      NonEmptyQuoted(items);
      assert |Joined(items)| >= 2;
    }
  }

  /** On printed lists of clean strings the two parsers agree. */
  lemma ParsersAgree(items: seq<string>)
    requires forall i | 0 <= i < |items| :: ScopeItem(items[i]) && ',' !in items[i]
    ensures ScopeOf(Marshalled(items)) == ArrayOf(Marshalled(items)) == items
  {
    ScopeRoundTrip(items);
    ArrayRoundTrip(items);
    forall i | 0 <= i < |items|
      ensures ArrayItem(items[i])
    {
      assert items[i][0] in items[i] && items[i][|items[i]| - 1] in items[i];
    }
  }

  // ---- The printed form ----

  /** Brackets, quotes, and commas between. */
  lemma PrintedForm(items: seq<string>, x: string, y: string)
    ensures Marshalled([]) == "[]" && Marshalled([x]) == "[\"" + x + "\"]"
    ensures Marshalled(items + [x, y]) == Marshalled(items + [x])[..|Marshalled(items + [x])| - 1] + ",\"" + y + "\"]"
  {
    var init := items + [x];
    assert items + [x, y] == init + [y] && (init + [y])[..|init|] == init;
    assert Joined(init + [y]) == Joined(init) + "," + Quoted(y);
    assert Marshalled(init)[..|Marshalled(init)| - 1] == "[" + Joined(init);
    assert [x][..0] == [];
  }

  // ---- Other writers' blanks ----

  predicate Blank(s: string) {
    forall i | 0 <= i < |s| :: IsSpace(s[i])
  }

  /** A string with blanks around it. */
  datatype Piece = Piece(before: string, item: string, after: string)

  function PieceText(p: Piece): string {
    p.before + Quoted(p.item) + p.after
  }

  function PiecesText(ps: seq<Piece>): string {
    if ps == [] then ""
    else if |ps| == 1 then PieceText(ps[0])
    else PiecesText(ps[..|ps| - 1]) + "," + PieceText(ps[|ps| - 1])
  }

  /** An array as any writer may print it, with blanks around brackets and strings. */
  function ArrayText(before: string, ps: seq<Piece>, after: string): string {
    before + ("[" + PiecesText(ps) + "]") + after
  }

  function ItemsOf(ps: seq<Piece>): (items: seq<string>)
    ensures |items| == |ps| && forall i | 0 <= i < |ps| :: items[i] == ps[i].item
  {
    seq(|ps|, i requires 0 <= i < |ps| => ps[i].item)
  }

  ghost predicate PieceOk(p: Piece) {
    Blank(p.before) && Blank(p.after) && ArrayItem(p.item)
  }

  lemma {:induction false} TrimLeftBlank(b: string, s: string)
    requires Blank(b) && s != "" && !IsSpace(s[0])
    ensures TrimLeft(b + s) == s
  {
    if b != "" {
      assert (b + s)[1..] == b[1..] + s;
      TrimLeftBlank(b[1..], s);
    } else {
      assert b + s == s;
    }
  }

  lemma {:induction false} TrimRightBlank(s: string, b: string)
    requires Blank(b) && s != "" && !IsSpace(s[|s| - 1])
    ensures TrimRight(s + b) == s
    decreases |b|
  {
    if b != "" {
      var n := |b| - 1;
      assert (s + b)[..|s| + n] == s + b[..n];
      TrimRightBlank(s, b[..n]);
    } else {
      assert s + b == s;
    }
  }

  lemma TrimBlanks(b: string, s: string, c: string)
    requires Blank(b) && Blank(c) && s != "" && !IsSpace(s[0]) && !IsSpace(s[|s| - 1])
    ensures TrimSpace(b + s + c) == s
  {
    assert b + s + c == b + (s + c);
    TrimLeftBlank(b, s + c);
    TrimRightBlank(s, c);
  }

  lemma UnquotedPiece(p: Piece)
    requires PieceOk(p)
    ensures Unquoted(PieceText(p)) == p.item && ',' !in PieceText(p)
  {
    TrimBlanks(p.before, Quoted(p.item), p.after);
    AlreadyTrimmed(Quoted(p.item));
    UnquotedIs(p.item);
  }

  function PieceTexts(ps: seq<Piece>): (ts: seq<string>)
    ensures |ts| == |ps|
  {
    if ps == [] then [] else PieceTexts(ps[..|ps| - 1]) + [PieceText(ps[|ps| - 1])]
  }

  lemma SplitComma(a: string, q: string)
    requires ',' !in q
    ensures Split(a + "," + q) == Split(a) + [q]
  {
    assert (a + ",")[..|a|] == a;
    SplitAppend(a + ",", q);
    assert "" + q == q;
  }

  lemma {:induction false} SplitPieces(ps: seq<Piece>)
    requires ps != [] && forall i | 0 <= i < |ps| :: PieceOk(ps[i])
    ensures Split(PiecesText(ps)) == PieceTexts(ps)
  {
    var n := |ps| - 1;
    var init, q := ps[..n], PieceText(ps[n]);
    UnquotedPiece(ps[n]);
    if n == 0 {
      assert Split([]) == [""] && [] + q == q && "" + q == q;
      SplitAppend([], q);
      assert init == [];
    } else {
      SplitPieces(init);
      SplitComma(PiecesText(init), q);
    }
  }

  lemma {:induction false} NonEmptyPieces(ps: seq<Piece>)
    requires forall i | 0 <= i < |ps| :: PieceOk(ps[i])
    ensures NonEmpty(PieceTexts(ps)) == ItemsOf(ps)
  {
    if ps != [] {
      var n := |ps| - 1;
      NonEmptyPieces(ps[..n]);
      UnquotedPiece(ps[n]);
      NonEmptyOne(PieceTexts(ps[..n]), PieceText(ps[n]));
      ItemsNext(ps);
    }
  }

  lemma InnerOfArray(before: string, inner: string, after: string)
    requires Blank(before) && Blank(after)
    ensures Inner(before + ("[" + inner + "]") + after) == inner
  {
    var s := "[" + inner + "]";
    TrimBlanks(before, s, after);
    assert s[1..] == inner + "]" && (inner + "]")[..|inner|] == inner;
  }

  /** Blanks around brackets and strings do not matter to the key parser. */
  lemma ArrayReadsBlanks(before: string, ps: seq<Piece>, after: string)
    requires Blank(before) && Blank(after) && forall i | 0 <= i < |ps| :: PieceOk(ps[i])
    ensures ArrayOf(ArrayText(before, ps, after)) == ItemsOf(ps)
  {
    InnerOfArray(before, PiecesText(ps), after);
    if ps != [] {
      SplitPieces(ps);
      NonEmptyPieces(ps);
      assert ItemsOf(ps)[0] != "" && NonEmpty([""]) != ItemsOf(ps) by {
        assert PieceOk(ps[0]);
        EmptyPart();
      }
      assert PiecesText(ps) != "";
    } else {
      assert ItemsOf(ps) == [];
    }
  }

  lemma {:induction false} ScanOutside(st: Scan, s: string)
    requires !st.inside && '"' !in s
    ensures ScanAll(st, s) == st
  {
    if s != [] {
      var n := |s| - 1;
      assert s[n] in s;
      ScanOutside(st, s[..n]);
    }
  }

  lemma BlankHasNoQuote(s: string)
    requires Blank(s)
    ensures '"' !in s
  {
  }

  lemma ScanPiece(out: seq<string>, p: Piece)
    requires Blank(p.before) && Blank(p.after) && ScopeItem(p.item)
    ensures ScanAll(Scan(out, false, ""), PieceText(p)) == Scan(out + [p.item], false, "")
  {
    BlankHasNoQuote(p.before);
    BlankHasNoQuote(p.after);
    var st := Scan(out, false, "");
    ScanConcat(st, p.before + Quoted(p.item), p.after);
    ScanConcat(st, p.before, Quoted(p.item));
    ScanOutside(st, p.before);
    ScanQuoted(out, p.item);
    ScanOutside(Scan(out + [p.item], false, ""), p.after);
  }

  lemma ScanAfterComma(a: string, items: seq<string>, b: string)
    requires ScanAll(START, a) == Scan(items, false, "")
    ensures ScanAll(START, a + "," + b) == ScanAll(Scan(items, false, ""), b)
  {
    ScanConcat(START, a + ",", b);
    ScanConcat(START, a, ",");
    ScanOne(Scan(items, false, ""), ',');
  }

  lemma ItemsNext(ps: seq<Piece>)
    requires ps != []
    ensures ItemsOf(ps) == ItemsOf(ps[..|ps| - 1]) + [ps[|ps| - 1].item]
  {
  }

  lemma {:induction false} ScanPieces(ps: seq<Piece>)
    requires forall i | 0 <= i < |ps| :: Blank(ps[i].before) && Blank(ps[i].after) && ScopeItem(ps[i].item)
    ensures ScanAll(START, PiecesText(ps)) == Scan(ItemsOf(ps), false, "")
  {
    if ps == [] {
      assert ItemsOf(ps) == [];
    } else {
      var n := |ps| - 1;
      var init, p := ps[..n], ps[n];
      ScanPieces(init);
      ScanPiece(ItemsOf(init), p);
      ItemsNext(ps);
      if n > 0 {
        ScanAfterComma(PiecesText(init), ItemsOf(init), PieceText(p));
      }
    }
  }

  /** Nor to the scope parser, which looks at quotes only. */
  lemma ScopeReadsBlanks(before: string, ps: seq<Piece>, after: string)
    requires Blank(before) && Blank(after)
    requires forall i | 0 <= i < |ps| :: Blank(ps[i].before) && Blank(ps[i].after) && ScopeItem(ps[i].item)
    ensures ScopeOf(ArrayText(before, ps, after)) == ItemsOf(ps)
  {
    var inner := PiecesText(ps);
    BlankHasNoQuote(before);
    BlankHasNoQuote(after);
    ScanConcat(START, before + ("[" + inner + "]"), after);
    ScanConcat(START, before, "[" + inner + "]");
    ScanOutside(START, before);
    ScanConcat(START, "[" + inner, "]");
    ScanConcat(START, "[", inner);
    ScanOne(START, '[');
    ScanPieces(ps);
    ScanOne(Scan(ItemsOf(ps), false, ""), ']');
    ScanOutside(Scan(ItemsOf(ps), false, ""), after);
    if ArrayText(before, ps, after) == "[]" {
      assert ScanAll(START, "[]").out == [] by {
        ScanOutside(START, "[]");
      }
    }
  }

  lemma EmptyPart()
    ensures NonEmpty([""]) == []
  {
    assert [""][..0] == [];
  }
}
