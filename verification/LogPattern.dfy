/** The scanner of log patterns: literal text, %name and %name{format}. */
module LogPattern {
  import opened Wrappers

  /** What the scanner appends to its list. */
  datatype Piece = Literal(text: string) | Field(name: string, format: string)

  datatype Scanned = Scanned(pieces: seq<Piece>, error: bool)

  const ERROR_PIECE := Literal("<error parse>")

  predicate IsAlpha(c: char) { 'a' <= c <= 'z' || 'A' <= c <= 'Z' }

  /** The characters the scanner takes into a name. */
  predicate InName(c: char) { IsAlpha(c) || c == '}' }

  // ---------------------------------------------------------------------------------------
  // What the scanner computes

  /** Length of the name at the start of s. */
  function NameLen(s: string): (k: nat)
    ensures k <= |s| && (forall i :: 0 <= i < k ==> InName(s[i])) && (k < |s| ==> !InName(s[k]))
  {
    if s == "" || !InName(s[0]) then 0
    else
      assert forall i :: 1 <= i < |s| ==> s[i] == s[1..][i - 1];
      1 + NameLen(s[1..])
  }

  /** Position of the first closing brace, or the length if there is none. */
  function Closing(s: string): (k: nat)
    ensures k <= |s| && (forall i :: 0 <= i < k ==> s[i] != '}') && (k < |s| ==> s[k] == '}')
  {
    if s == "" || s[0] == '}' then 0
    else
      assert forall i :: 1 <= i < |s| ==> s[i] == s[1..][i - 1];
      1 + Closing(s[1..])
  }

  /** What follows a percent sign: a field and how many characters it takes, or None for a brace
      that is never closed. */
  datatype After = After(field: Piece, used: nat)

  function FieldAt(s: string): (r: Option<After>)
    ensures r.Some? ==> r.value.used <= |s| && r.value.field.Field?
  {
    var k := NameLen(s);
    if k < |s| && s[k] == '{' then
      var c := Closing(s[k + 1..]);
      if k + 1 + c < |s| then Some(After(Field(s[..k], s[k + 1..k + 1 + c]), k + c + 2)) else None
    else Some(After(Field(s[..k], ""), k))
  }

  function Flush(lit: string): seq<Piece> { if lit == "" then [] else [Literal(lit)] }

  /** The rest of the scan, from a suffix of the pattern and the literal gathered so far. */
  function Scan(p: string, lit: string): Scanned
    decreases |p|
  {
    if p == "" then Scanned(Flush(lit), false)
    else if p[0] != '%' then Scan(p[1..], lit + [p[0]])
    else if 1 < |p| && p[1] == '%' then Scan(p[1..], lit + "%")
    else
      match FieldAt(p[1..])
      case None => Scanned([ERROR_PIECE] + Flush(lit), true)
      case Some(after) =>
        var rest := Scan(p[1 + after.used..], "");
        Scanned(Flush(lit) + [after.field] + rest.pieces, rest.error)
  }

  /** Earlier pieces in front of a scan. */
  function Behind(pieces: seq<Piece>, r: Scanned): Scanned {
    Scanned(pieces + r.pieces, r.error)
  }

  // ---------------------------------------------------------------------------------------
  // The nested loops

  lemma FieldPlain(s: string)
    requires var k := NameLen(s); k < |s| ==> s[k] != '{'
    ensures FieldAt(s) == Some(After(Field(s[..NameLen(s)], ""), NameLen(s)))
  {
  }

  lemma FieldBraced(s: string, k: nat, c: nat)
    requires k == NameLen(s) && k < c < |s| && s[k] == '{' && s[c] == '}'
    requires forall x :: k < x < c ==> s[x] != '}'
    ensures FieldAt(s) == Some(After(Field(s[..k], s[k + 1..c]), c + 1))
  {
    hide NameLen, Closing;
    ClosingIs(s[k + 1..], c - k - 1);
    assert s[k + 1..c] == s[k + 1..k + 1 + (c - k - 1)];
  }

  lemma FieldOpen(s: string, k: nat)
    requires k == NameLen(s) && k < |s| && s[k] == '{'
    requires forall x :: k < x < |s| ==> s[x] != '}'
    ensures FieldAt(s) == None
  {
    hide NameLen, Closing;
    var rest := s[k + 1..];
    assert forall x :: 0 <= x < |rest| ==> rest[x] == s[k + 1 + x];
  }

  lemma ClosingIs(s: string, c: nat)
    requires c < |s| && s[c] == '}' && forall x :: 0 <= x < c ==> s[x] != '}'
    ensures Closing(s) == c
  {
    hide Closing;
  }

  lemma NameIs(s: string, k: nat)
    requires k <= |s| && (forall x :: 0 <= x < k ==> InName(s[x])) && (k < |s| ==> !InName(s[k]))
    ensures NameLen(s) == k
  {
    hide NameLen;
  }

  /** The inner loop: from just after a percent sign, find the name and format.  j is where the
      scan goes on; open: a brace was not closed. */
  method ScanField(p: string, i: nat) returns (name: string, format: string, j: nat, open: bool)
    requires i < |p| && p[i] == '%'
    ensures i < j <= |p| && open == FieldAt(p[i + 1..]).None?
    ensures !open ==> FieldAt(p[i + 1..]) == Some(After(Field(name, format), j - i - 1))
  {
    hide NameLen, Closing, FieldAt, InName;
    ghost var s := p[i + 1..];
    ghost var k := NameLen(s);
    j := i + 1;
    var status, begin := 0, 0;
    name, format := "", "";
    while j < |p|
      invariant i < j <= |p| && status in {0, 1} && format == ""
      invariant status == 0 ==> j - i - 1 <= k && name == if j == |p| then s else ""
      invariant status == 1 ==>
        && begin == i + 1 + k && k < |s| && s[k] == '{' && begin < j
        && (forall x :: k < x < j - i - 1 ==> s[x] != '}') && (j < |p| ==> name == s[..k])
      decreases |p| - j
    {
      ghost var x := j - i - 1;
      assert p[j] == s[x];
      assert InName(p[j]) == (IsAlpha(p[j]) || p[j] == '}') by { NameChar(p[j]); }
      if status == 0 && !IsAlpha(p[j]) && p[j] != '{' && p[j] != '}' {
        name := p[i + 1..j];
        assert x == k && name == s[..k];
        FieldPlain(s);
        return name, "", j, false;
      }
      if status == 0 && p[j] == '{' {
        status := 1;
        assert x == k;
        name := p[i + 1..j];
        begin := j;
        j := j + 1;
        continue;
      }
      if status == 1 && p[j] == '}' {
        format := p[begin + 1..j];
        assert format == s[k + 1..x];
        FieldBraced(s, k, x);
        return name, format, j + 1, false;
      }
      j := j + 1;
      if j == |p| {
        if name == "" {
          name := p[i + 1..];
        }
      }
    }
    open := status == 1;
    if open {
      FieldOpen(s, k);
    } else {
      assert s[..k] == s;
      FieldPlain(s);
    }
  }

  lemma NameChar(c: char)
    ensures InName(c) <==> IsAlpha(c) || c == '}'
  {
  }

  /** One turn of the scan, with earlier pieces in front. */
  lemma ScanUnfold(p: string, i: nat, lit: string, vec: seq<Piece>)
    requires i < |p|
    ensures Behind(vec, Scan(p[i..], lit)) ==
      if p[i] != '%' then Behind(vec, Scan(p[i + 1..], lit + [p[i]]))
      else if i + 1 < |p| && p[i + 1] == '%' then Behind(vec, Scan(p[i + 1..], lit + "%"))
      else match FieldAt(p[i + 1..])
           case None => Scanned(vec + [ERROR_PIECE] + Flush(lit), true)
           case Some(after) => Behind(vec + Flush(lit) + [after.field], Scan(p[i + 1 + after.used..], ""))
  {
    hide FieldAt, Flush;
    var rest := p[i..];
    assert rest[0] == p[i] && rest[1..] == p[i + 1..];
    assert 1 < |rest| ==> rest[1] == p[i + 1];
    var r := FieldAt(p[i + 1..]);
    if r.None? {
      assert vec + ([ERROR_PIECE] + Flush(lit)) == vec + [ERROR_PIECE] + Flush(lit);
    } else {
      assert rest[1 + r.value.used..] == p[i + 1 + r.value.used..];
      var more := Scan(p[i + 1 + r.value.used..], "").pieces;
      assert vec + (Flush(lit) + [r.value.field] + more) == vec + Flush(lit) + [r.value.field] + more;
    }
  }

  /** LogFormatter::init up to its list of pieces. */
  method Init(pattern: string) returns (vec: seq<Piece>, error: bool)
    ensures Scanned(vec, error) == Scan(pattern, "")
  {
    hide Scan, FieldAt, Flush;
    var lit := "";
    vec, error := [], false;
    var i := 0;
    assert pattern[0..] == pattern && Behind([], Scan(pattern, "")) == Scan(pattern, "");
    while i < |pattern|
      invariant 0 <= i <= |pattern|
      invariant Scan(pattern, "") == Behind(vec, Scan(pattern[i..], lit))
    {
      ScanUnfold(pattern, i, lit, vec);
      if pattern[i] != '%' {
        lit := lit + [pattern[i]];
        i := i + 1;
        continue;
      }
      if i + 1 < |pattern| && pattern[i + 1] == '%' {
        lit := lit + "%";
        i := i + 1;
        continue;
      }
      var name, format, j, open := ScanField(pattern, i);
      if open {
        vec := vec + [ERROR_PIECE] + Flush(lit);
        return vec, true;
      }
      vec := vec + Flush(lit) + [Field(name, format)];
      lit := "";
      i := j;
    }
    assert pattern[i..] == "";
    ScanEnd(lit);
    vec := vec + Flush(lit);
  }

  lemma ScanEnd(lit: string)
    ensures Scan("", lit) == Scanned(Flush(lit), false)
  {
  }

  // ---------------------------------------------------------------------------------------
  // Printing

  /** An item as it is written: a field with no format may be written with or without braces. */
  datatype Item = Text(text: string) | Plain(name: string) | Braced(name: string, format: string)

  function PieceOf(item: Item): Piece {
    match item
    case Text(t) => Literal(t)
    case Plain(n) => Field(n, "")
    case Braced(n, f) => Field(n, f)
  }

  function Print(item: Item): string {
    match item
    case Text(t) => t
    case Plain(n) => "%" + n
    case Braced(n, f) => "%" + n + "{" + f + "}"
  }

  function Pieces(items: seq<Item>): seq<Piece> {
    if items == [] then [] else [PieceOf(items[0])] + Pieces(items[1..])
  }

  function PrintAll(items: seq<Item>): string {
    if items == [] then "" else Print(items[0]) + PrintAll(items[1..])
  }

  predicate Alphabetic(s: string) { forall c :: c in s ==> IsAlpha(c) }

  /** What a list must satisfy to be read back: literals are not empty, hold no percent sign and
      do not touch, names are alphabetic, formats have no closing brace, and the literal after a
      name without braces does not go on with a letter or a brace. */
  predicate Canonical(items: seq<Item>) {
    items != [] ==>
      && Canonical(items[1..])
      && match items[0]
         case Text(t) => t != "" && '%' !in t && (1 < |items| ==> !items[1].Text?)
         case Plain(n) =>
           && n != "" && Alphabetic(n)
           && (1 < |items| && items[1].Text? ==>
                 items[1].text != "" && !InName(items[1].text[0]) && items[1].text[0] != '{')
         case Braced(n, f) => Alphabetic(n) && '}' !in f
  }

  /** A percent sign that introduces this field, with `rest` behind it. */
  predicate Introduces(p: string, field: Piece, rest: string) {
    && p != "" && p[0] == '%' && !(1 < |p| && p[1] == '%')
    && match FieldAt(p[1..])
       case None => false
       case Some(after) => after.field == field && p[1 + after.used..] == rest
  }

  lemma PlainFirst(n: string, rest: string)
    requires Alphabetic(n) && n != "" && (rest != "" ==> !InName(rest[0]) && rest[0] != '{')
    ensures Introduces("%" + n + rest, Field(n, ""), rest)
  {
    hide FieldAt, NameLen;
    var s := n + rest;
    NameIs(s, |n|);
    FieldPlain(s);
    assert s[..|n|] == n;
    assert ("%" + n + rest)[1..] == s;
  }

  lemma BracedFirst(n: string, f: string, rest: string)
    requires Alphabetic(n) && '}' !in f
    ensures Introduces("%" + n + "{" + f + "}" + rest, Field(n, f), rest)
  {
    var p := "%" + n + "{" + f + "}" + rest;
    BracedShape(n, f, rest);
    hide FieldAt, NameLen;
    NameIs(p[1..], |n|);
    FieldBraced(p[1..], |n|, |n| + 1 + |f|);
  }

  /** Where the parts of a printed field with braces are. */
  lemma BracedShape(n: string, f: string, rest: string)
    ensures var p, k, c := "%" + n + "{" + f + "}" + rest, |n|, |n| + 1 + |f|;
      var s := p[1..];
      && p[0] == '%' && c < |s| && p[c + 2..] == rest
      && s[..k] == n && s[k] == '{' && s[k + 1..c] == f && s[c] == '}'
  {
    var p := "%" + n + "{" + f + "}" + rest;
    assert p[1..] == n + "{" + f + "}" + rest;
  }

  /** A printed list that starts with a field starts with a percent sign that introduces it. */
  lemma FieldFirst(items: seq<Item>)
    requires Canonical(items) && items != [] && !items[0].Text?
    ensures Introduces(PrintAll(items), PieceOf(items[0]), PrintAll(items[1..]))
  {
    hide Introduces, PrintAll;
    var n, rest := items[0].name, PrintAll(items[1..]);
    PrintFirst(items);
    if items[0].Plain? {
      if items[1..] != [] {
        FirstChar(items[1..]);
      } else {
        PrintNone();
      }
      PlainFirst(n, rest);
    } else {
      BracedFirst(n, items[0].format, rest);
    }
  }

  lemma PrintNone()
    ensures PrintAll([]) == ""
  {
  }

  lemma PrintFirst(items: seq<Item>)
    requires items != []
    ensures PrintAll(items) == Print(items[0]) + PrintAll(items[1..])
  {
  }

  lemma FirstChar(items: seq<Item>)
    requires Canonical(items) && items != []
    ensures PrintAll(items) != "" && PrintAll(items)[0] == (if items[0].Text? then items[0].text[0] else '%')
  {
  }

  /** At a field the gathered literal is flushed. */
  lemma FlushFirst(p: string, lit: string, field: Piece, rest: string)
    requires Introduces(p, field, rest)
    ensures Scan(p, lit) == Behind(Flush(lit) + [field], Scan(rest, ""))
  {
    hide FieldAt;
  }

  /** Parse after print: scanning the printed list gives the list back. */
  lemma {:induction false} ScanPrint(items: seq<Item>)
    requires Canonical(items)
    ensures Scan(PrintAll(items), "") == Scanned(Pieces(items), false)
  {
    hide FieldAt, Print, Introduces;
    if items != [] {
      ScanPrint(items[1..]);
      if items[0].Text? {
        var t, rest := items[0].text, PrintAll(items[1..]);
        PrintText(items);
        ScanText(t, rest, "");
        assert "" + t == t;
        if items[1..] != [] {
          assert items[1..][0] == items[1];
          var field, more := PieceOf(items[1]), PrintAll(items[2..]);
          FieldFirst(items[1..]);
          assert items[1..][1..] == items[2..];
          FlushFirst(rest, t, field, more);
          FlushFirst(rest, "", field, more);
        }
      } else {
        FieldFirst(items);
        FlushFirst(PrintAll(items), "", PieceOf(items[0]), PrintAll(items[1..]));
      }
    }
  }

  lemma PrintText(items: seq<Item>)
    requires items != [] && items[0].Text?
    ensures PrintAll(items) == items[0].text + PrintAll(items[1..])
  {
  }

  /** Characters without a percent sign only lengthen the literal. */
  lemma {:induction false} ScanText(t: string, rest: string, lit: string)
    requires '%' !in t
    ensures Scan(t + rest, lit) == Scan(rest, lit + t)
  {
    if t == "" {
      assert t + rest == rest && lit + t == lit;
    } else {
      ScanText(t[1..], rest, lit + [t[0]]);
      assert (t + rest)[1..] == t[1..] + rest;
      assert lit + [t[0]] + t[1..] == lit + t;
    }
  }

  // ---------------------------------------------------------------------------------------
  // Every pattern is accounted for

  function TextIf(lit: string): seq<Item> { if lit == "" then [] else [Text(lit)] }

  /** A brace after the name that is never closed. */
  ghost predicate OpenBrace(tail: string) {
    && tail != "" && tail[0] == '%'
    && exists k :: 0 < k < |tail| && tail[k] == '{'
         && (forall x :: 0 < x < k ==> InName(tail[x])) && (forall x :: k < x < |tail| ==> tail[x] != '}')
  }

  lemma {:induction false} Concatenated(a: seq<Item>, b: seq<Item>)
    ensures PrintAll(a + b) == PrintAll(a) + PrintAll(b)
  {
    hide Print, PrintAll;
    if a == [] {
      assert a + b == b;
      PrintNone();
    } else {
      Concatenated(a[1..], b);
      assert (a + b)[0] == a[0] && (a + b)[1..] == a[1..] + b;
      PrintFirst(a + b);
      PrintFirst(a);
      assert Print(a[0]) + (PrintAll(a[1..]) + PrintAll(b)) == PrintAll(a) + PrintAll(b);
    }
  }

  lemma PiecesFirst(items: seq<Item>)
    requires items != []
    ensures Pieces(items) == [PieceOf(items[0])] + Pieces(items[1..])
  {
  }

  lemma {:induction false} PiecesConcatenated(a: seq<Item>, b: seq<Item>)
    ensures Pieces(a + b) == Pieces(a) + Pieces(b)
  {
    hide PieceOf, Pieces;
    if a == [] {
      assert a + b == b;
      NoItems();
    } else {
      PiecesConcatenated(a[1..], b);
      assert (a + b)[0] == a[0] && (a + b)[1..] == a[1..] + b;
      PiecesFirst(a);
      PiecesFirst(a + b);
      assert [PieceOf(a[0])] + (Pieces(a[1..]) + Pieces(b)) == Pieces(a) + Pieces(b);
    }
  }

  lemma BracedPrinted(s: string, k: nat, e: nat)
    requires k < e < |s| && s[k] == '{' && s[e] == '}'
    ensures Print(Braced(s[..k], s[k + 1..e])) + s[e + 1..] == "%" + s
  {
    assert s == s[..k] + "{" + s[k + 1..e] + "}" + s[e + 1..];
  }

  lemma PlainPrinted(s: string, k: nat)
    requires k <= |s|
    ensures Print(Plain(s[..k])) + s[k..] == "%" + s
  {
    assert s == s[..k] + s[k..];
  }

  /** The item a field was read from. */
  lemma FieldPrinted(s: string) returns (item: Item)
    requires FieldAt(s).Some?
    ensures PieceOf(item) == FieldAt(s).value.field
    ensures Print(item) + s[FieldAt(s).value.used..] == "%" + s
  {
    var k := NameLen(s);
    hide NameLen, Closing, Print;
    if k < |s| && s[k] == '{' {
      var c := Closing(s[k + 1..]);
      item := Braced(s[..k], s[k + 1..k + 1 + c]);
      assert s[k + 1..][c] == s[k + 1 + c];
      BracedPrinted(s, k, k + 1 + c);
    } else {
      item := Plain(s[..k]);
      PlainPrinted(s, k);
    }
  }

  lemma OpenIs(s: string)
    requires FieldAt(s).None?
    ensures OpenBrace("%" + s)
  {
    var k := NameLen(s);
    hide NameLen, Closing;
    var tail := "%" + s;
    assert tail[k + 1] == '{';
    forall x | k + 1 < x < |tail| ensures tail[x] != '}' {
      assert tail[x] == s[k + 1..][x - k - 2];
    }
  }

  /** Print after parse: the scan of any pattern, `%%` included, loses nothing.  Without an error
      the pattern is the printing of a list that has exactly the scanned pieces; with one, it is
      such a list, the literal gathered last, and a field whose brace is never closed. */
  lemma {:induction false} Lossless(p: string, lit: string) returns (items: seq<Item>, pending: string, tail: string)
    ensures var r := Scan(p, lit);
      if r.error then
        && lit + p == PrintAll(items) + pending + tail && OpenBrace(tail)
        && r.pieces == Pieces(items) + [ERROR_PIECE] + Flush(pending)
      else lit + p == PrintAll(items) && r.pieces == Pieces(items)
    decreases |p|
  {
    hide FieldAt, OpenBrace, Print, PieceOf, Pieces, PrintAll, Flush, TextIf;
    pending, tail := "", "";
    if p == "" {
      items := TextIf(lit);
      LoneText(lit);
    } else if p[0] != '%' {
      items, pending, tail := Lossless(p[1..], lit + [p[0]]);
      assert lit + [p[0]] + p[1..] == lit + p;
    } else if 1 < |p| && p[1] == '%' {
      items, pending, tail := Lossless(p[1..], lit + "%");
      assert lit + "%" + p[1..] == lit + p;
    } else if FieldAt(p[1..]).None? {
      items, pending, tail := [], lit, p;
      NoItems();
      assert p == "%" + p[1..];
      OpenIs(p[1..]);
    } else {
      var used := FieldAt(p[1..]).value.used;
      var item := FieldPrinted(p[1..]);
      var more;
      more, pending, tail := Lossless(p[1 + used..], "");
      items := TextIf(lit) + ([item] + more);
      Grown(item, lit, more);
      assert p == "%" + p[1..] && p[1..][used..] == p[1 + used..];
      Joined(lit, p, Print(item), p[1 + used..], PrintAll(more), pending, tail);
      Regrouped(Flush(lit) + [PieceOf(item)], Pieces(more), [ERROR_PIECE], Flush(pending));
    }
  }

  lemma Regrouped(a: seq<Piece>, b: seq<Piece>, c: seq<Piece>, d: seq<Piece>)
    ensures a + (b + c + d) == a + b + c + d
  {
  }

  lemma Joined(lit: string, p: string, item: string, rest: string, more: string, pending: string, tail: string)
    requires p == item + rest
    ensures rest == more + pending + tail ==> lit + p == (lit + item + more) + pending + tail
    ensures rest == more ==> lit + p == lit + item + more
  {
  }

  lemma Grown(item: Item, lit: string, more: seq<Item>)
    ensures var items := TextIf(lit) + ([item] + more);
      && PrintAll(items) == lit + Print(item) + PrintAll(more)
      && Pieces(items) == Flush(lit) + [PieceOf(item)] + Pieces(more)
  {
    hide Print, PieceOf;
    LoneText(lit);
    OneMore(item, more);
    Concatenated(TextIf(lit), [item] + more);
    PiecesConcatenated(TextIf(lit), [item] + more);
  }

  lemma OneMore(item: Item, more: seq<Item>)
    ensures PrintAll([item] + more) == Print(item) + PrintAll(more)
    ensures Pieces([item] + more) == [PieceOf(item)] + Pieces(more)
  {
    assert ([item] + more)[1..] == more;
  }

  lemma NoItems()
    ensures PrintAll([]) == "" && Pieces([]) == []
  {
  }

  lemma LoneText(lit: string)
    ensures PrintAll(TextIf(lit)) == lit && Pieces(TextIf(lit)) == Flush(lit)
  {
    if lit != "" {
      assert TextIf(lit)[1..] == [];
    }
  }

  // ---------------------------------------------------------------------------------------
  // The doubled percent sign

  /** The documented reading of `%%`: one literal percent sign for the two. */
  function ScanEscaped(p: string, lit: string): Scanned
    decreases |p|
  {
    if p == "" then Scanned(Flush(lit), false)
    else if p[0] != '%' then ScanEscaped(p[1..], lit + [p[0]])
    else if 1 < |p| && p[1] == '%' then ScanEscaped(p[2..], lit + "%")
    else
      match FieldAt(p[1..])
      case None => Scanned([ERROR_PIECE] + Flush(lit), true)
      case Some(after) =>
        var rest := ScanEscaped(p[1 + after.used..], "");
        Scanned(Flush(lit) + [after.field] + rest.pieces, rest.error)
  }

  /** Outside every field there is a percent sign with another one behind it. */
  predicate MeetsDoubled(p: string)
    decreases |p|
  {
    if p == "" then false
    else if p[0] != '%' then MeetsDoubled(p[1..])
    else if 1 < |p| && p[1] == '%' then true
    else
      match FieldAt(p[1..])
      case None => false
      case Some(after) => MeetsDoubled(p[1 + after.used..])
  }

  /** The literal a scan gathers before its first field, error or end. */
  function Run(p: string): string
    decreases |p|
  {
    if p == "" then ""
    else if p[0] != '%' then [p[0]] + Run(p[1..])
    else if 1 < |p| && p[1] == '%' then "%" + Run(p[1..])
    else ""
  }

  function RunEscaped(p: string): string
    decreases |p|
  {
    if p == "" then ""
    else if p[0] != '%' then [p[0]] + RunEscaped(p[1..])
    else if 1 < |p| && p[1] == '%' then "%" + RunEscaped(p[2..])
    else ""
  }

  /** The first literal a scan emits, which an error puts in the second place. */
  function Lead(r: Scanned): Option<Piece> {
    if r.pieces == [] then None
    else if r.pieces[0] != ERROR_PIECE then Some(r.pieces[0])
    else if |r.pieces| == 1 then None
    else Some(r.pieces[1])
  }

  /** A literal that holds a percent sign is not the error piece. */
  lemma LeadFlush(lit: string)
    requires '%' in lit
    ensures forall e :: Lead(Scanned(Flush(lit), e)) == Some(Literal(lit))
    ensures Lead(Scanned([ERROR_PIECE] + Flush(lit), true)) == Some(Literal(lit))
    ensures forall more, e :: Lead(Scanned(Flush(lit) + more, e)) == Some(Literal(lit))
    ensures forall f, more, e :: Lead(Scanned(Flush(lit) + [f] + more, e)) == Some(Literal(lit))
  {
    assert Literal(lit) != ERROR_PIECE;
  }

  lemma OneOn(a: string, b: string, c: string)
    requires |b| == 1
    ensures a + b + c == a + (b + c)
    ensures '%' in a ==> '%' in a + b
  {
  }

  lemma EndOfRun(p: string, lit: string)
    requires '%' in lit && (p == "" || (p[0] == '%' && !(1 < |p| && p[1] == '%')))
    ensures Run(p) == "" && Lead(Scan(p, lit)) == Some(Literal(lit))
  {
    hide FieldAt, Flush, Lead;
    LeadFlush(lit);
  }

  lemma {:induction false} LeadIsRun(p: string, lit: string)
    requires '%' in lit
    ensures Lead(Scan(p, lit)) == Some(Literal(lit + Run(p)))
    decreases |p|
  {
    hide FieldAt, Flush, Lead;
    if p != "" && p[0] != '%' {
      LeadIsRun(p[1..], lit + [p[0]]);
      OneOn(lit, [p[0]], Run(p[1..]));
    } else if 1 < |p| && p[1] == '%' {
      LeadIsRun(p[1..], lit + "%");
      OneOn(lit, "%", Run(p[1..]));
    } else {
      EndOfRun(p, lit);
      assert lit + "" == lit;
    }
  }

  lemma EndOfRunEscaped(p: string, lit: string)
    requires '%' in lit && (p == "" || (p[0] == '%' && !(1 < |p| && p[1] == '%')))
    ensures RunEscaped(p) == "" && Lead(ScanEscaped(p, lit)) == Some(Literal(lit))
  {
    hide FieldAt, Flush, Lead;
    LeadFlush(lit);
  }

  lemma {:induction false} LeadIsRunEscaped(p: string, lit: string)
    requires '%' in lit
    ensures Lead(ScanEscaped(p, lit)) == Some(Literal(lit + RunEscaped(p)))
    decreases |p|
  {
    hide FieldAt, Flush, Lead;
    if p != "" && p[0] != '%' {
      LeadIsRunEscaped(p[1..], lit + [p[0]]);
      OneOn(lit, [p[0]], RunEscaped(p[1..]));
    } else if 1 < |p| && p[1] == '%' {
      LeadIsRunEscaped(p[2..], lit + "%");
      OneOn(lit, "%", RunEscaped(p[2..]));
    } else {
      EndOfRunEscaped(p, lit);
      assert lit + "" == lit;
    }
  }

  predicate Percents(a: string) { forall c :: c in a ==> c == '%' }

  /** Behind a doubled percent sign the two readings gather different literals, unless the
      pattern ends there. */
  lemma {:induction false} RunsDiffer(t: string, a: string)
    requires Percents(a) && (a != "" || t != "")
    ensures a + Run("%" + t) != RunEscaped(t)
    decreases |t|
  {
    var q := "%" + t;
    assert q[1..] == t;
    if t == "" {
    } else if t[0] != '%' {
      assert Run(q) == "" && RunEscaped(t)[0] == t[0];
      assert a != "" ==> (a + "")[0] in a;
    } else {
      var u := t[1..];
      assert t == "%" + u && Run(q) == "%" + Run(t);
      if u != "" && u[0] == '%' {
        var v := u[1..];
        assert u == "%" + v && t[2..] == v && t[1..] == u;
        assert Run(t) == "%" + Run(u) && RunEscaped(t) == "%" + RunEscaped(v);
        RunsDiffer(v, a + "%");
        SameHead(a, Run(u), RunEscaped(v));
      } else {
        assert RunEscaped(t) == "";
      }
    }
  }

  /** All characters of a are percent signs, so one may be moved to its front. */
  lemma SameHead(a: string, x: string, y: string)
    requires Percents(a) && a + "%" + x != y
    ensures a + ("%" + ("%" + x)) != "%" + y
  {
    assert forall i :: 0 <= i < |a| ==> a[i] in a;
    assert a + "%" == "%" + a;
    assert a + ("%" + ("%" + x)) == "%" + (a + "%" + x);
    assert ("%" + y)[1..] == y && ("%" + (a + "%" + x))[1..] == a + "%" + x;
  }

  /** After a doubled percent sign the two scans never agree. */
  lemma DoubledDiffers(t: string, lit: string)
    requires '%' in lit
    ensures Scan("%" + t, lit) != ScanEscaped(t, lit)
  {
    if t == "" {
      LonePercent(lit);
    } else {
      LeadIsRun("%" + t, lit);
      LeadIsRunEscaped(t, lit);
      RunsDiffer(t, "");
      assert "" + Run("%" + t) == Run("%" + t);
      assert (lit + Run("%" + t))[|lit|..] == Run("%" + t) && (lit + RunEscaped(t))[|lit|..] == RunEscaped(t);
    }
  }

  lemma LonePercent(lit: string)
    requires lit != ""
    ensures Scan("%", lit) == Scanned([Literal(lit), Field("", "")], false)
    ensures ScanEscaped("", lit) == Scanned([Literal(lit)], false)
  {
    assert "%"[1..] == "" && NameLen("") == 0;
    assert FieldAt("") == Some(After(Field("", ""), 0));
    assert "%"[1 + 0..] == "" && Scan("", "") == Scanned([], false);
    assert Flush(lit) + [Field("", "")] + [] == [Literal(lit), Field("", "")];
  }

  /** The documented form, exactly: a pattern is scanned as documented if and only if it has no
      doubled percent sign outside a field. */
  lemma {:induction false} DoubledExact(p: string, lit: string)
    ensures Scan(p, lit) == ScanEscaped(p, lit) <==> !MeetsDoubled(p)
    decreases |p|
  {
    hide FieldAt, Flush;
    if p == "" {
    } else if p[0] != '%' {
      DoubledExact(p[1..], lit + [p[0]]);
    } else if 1 < |p| && p[1] == '%' {
      assert p[1..] == "%" + p[2..];
      DoubledDiffers(p[2..], lit + "%");
    } else {
      var r := FieldAt(p[1..]);
      if r.Some? {
        var rest := p[1 + r.value.used..];
        DoubledExact(rest, "");
        SamePieces(Flush(lit) + [r.value.field], Scan(rest, ""), ScanEscaped(rest, ""));
      }
    }
  }

  lemma SamePieces(front: seq<Piece>, a: Scanned, b: Scanned)
    ensures Behind(front, a) == Behind(front, b) <==> a == b
  {
    assert (front + a.pieces)[|front|..] == a.pieces && (front + b.pieces)[|front|..] == b.pieces;
  }

  /** For instance `%%` alone: a literal percent sign, and then a field without a name. */
  lemma DoubledPercent()
    ensures Scan("%%", "") == Scanned([Literal("%"), Field("", "")], false)
    ensures ScanEscaped("%%", "") == Scanned([Literal("%")], false)
  {
    var two := "%%";
    assert two[1..] == "%" && two[2..] == "" && "" + "%" == "%";
    LonePercent("%");
  }
}
