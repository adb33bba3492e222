/** The normal form of a query, which decides what shares a cache entry. */
module Normalize {

  // White space

  /** Unicode white space, as `strings.Fields` sees it. */
  predicate IsSpace(c: char) {
    var n := c as int;
    || 0x09 <= n <= 0x0D || n == 0x20 || n == 0x85 || n == 0xA0 || n == 0x1680 || 0x2000 <= n <= 0x200A
    || n == 0x2028 || n == 0x2029 || n == 0x202F || n == 0x205F || n == 0x3000
  }

  function WordLength(s: string): (n: nat)
    ensures n <= |s|
    ensures forall i | 0 <= i < n :: !IsSpace(s[i])
    ensures n < |s| ==> IsSpace(s[n])
  {
    if s == "" || IsSpace(s[0]) then 0 else 1 + WordLength(s[1..])
  }

  function Fields(s: string): seq<string>
    decreases |s|
  {
    if s == "" then []
    else if IsSpace(s[0]) then Fields(s[1..])
    else
      assert WordLength(s) > 0;
      [s[..WordLength(s)]] + Fields(s[WordLength(s)..])
  }

  function Spaced(words: seq<string>): string {
    if words == [] then "" else if |words| == 1 then words[0] else words[0] + " " + Spaced(words[1..])
  }

  predicate Word(w: string) {
    w != "" && forall c <- w :: !IsSpace(c)
  }

  ghost predicate Words(ws: seq<string>) {
    forall w <- ws :: Word(w)
  }

  function Collapse(q: string): string {
    Spaced(Fields(q))
  }

  lemma {:induction false} FieldsAreWords(s: string)
    ensures Words(Fields(s))
    decreases |s|
  {
    hide IsSpace;
    if s != "" {
      if IsSpace(s[0]) {
        FieldsAreWords(s[1..]);
      } else {
        FieldsAreWords(s[WordLength(s)..]);
      }
    }
  }

  lemma WordFirst(w: string, rest: string)
    requires Word(w) && (rest == "" || IsSpace(rest[0]))
    ensures Fields(w + rest) == [w] + Fields(rest)
  {
    hide IsSpace;
    var s := w + rest;
    assert WordLength(s) == |w| by {
      assert forall i | 0 <= i < |w| :: s[i] == w[i] && s[i] in w;
      assert rest != "" ==> s[|w|] == rest[0];
    }
    assert s[..|w|] == w && s[|w|..] == rest;
    assert !IsSpace(s[0]) by { assert s[0] == w[0] && w[0] in w; }
  }

  /** Splitting undoes joining. */
  lemma {:induction false} FieldsOfSpaced(ws: seq<string>)
    requires Words(ws)
    ensures Fields(Spaced(ws)) == ws
  {
    if ws == [] {
      NoFields();
    } else {
      assert ws[0] in ws && forall v <- ws[1..] :: v in ws;
      FieldsOfSpaced(ws[1..]);
      var rest := Spaced(ws[1..]);
      assert Spaced(ws) == if |ws| == 1 then ws[0] else ws[0] + " " + rest;
      hide Fields, Spaced, Word;
      if |ws| == 1 {
        WordAlone(ws[0]);
      } else {
        WordThenMore(ws[0], rest);
        assert ws == [ws[0]] + ws[1..];
      }
    }
  }

  lemma WordAlone(w: string)
    requires Word(w)
    ensures Fields(w) == [w]
  {
    hide Fields, Word;
    WordFirst(w, "");
    NoFields();
    assert w + "" == w;
  }

  lemma WordThenMore(w: string, rest: string)
    requires Word(w)
    ensures Fields(w + " " + rest) == [w] + Fields(rest)
  {
    hide Fields, Word, IsSpace;
    SpaceIsSpace();
    WordFirst(w, " " + rest);
    SkipWhite(" ", rest);
    assert w + " " + rest == w + (" " + rest);
  }

  /** Equal but for characters that are not white space in either. */
  ghost predicate SameShape(a: string, b: string) {
    |a| == |b| && forall i | 0 <= i < |a| :: if IsSpace(a[i]) then b[i] == a[i] else !IsSpace(b[i])
  }

  /** A string shaped like joined words is joined from words. */
  lemma {:induction false} ShapedLikeWords(ws: seq<string>, b: string)
    requires Words(ws) && SameShape(Spaced(ws), b)
    ensures Collapse(b) == b
  {
    var us := Reshaped(ws, b);
    FieldsOfSpaced(us);
  }

  lemma {:induction false} Reshaped(ws: seq<string>, b: string) returns (us: seq<string>)
    requires Words(ws) && SameShape(Spaced(ws), b)
    ensures Words(us) && Spaced(us) == b && |us| == |ws|
  {
    hide IsSpace;
    if ws == [] {
      us := [];
    } else {
      var w, a := ws[0], Spaced(ws);
      var n := |w|;
      assert forall i | 0 <= i < n :: a[i] == w[i];
      assert Word(w);
      forall i | 0 <= i < n ensures !IsSpace(b[i]) {
        assert w[i] in w && !IsSpace(a[i]);
      }
      assert |b[..n]| == n && Word(b[..n]);
      if |ws| == 1 {
        us := [b];
        assert b[..n] == b;
      } else {
        var rest := Spaced(ws[1..]);
        assert a == w + " " + rest && a[n] == ' ' && a[n + 1..] == rest;
        SpaceIsSpace();
        assert SameShape(rest, b[n + 1..]) by {
          forall i | 0 <= i < |rest| ensures rest[i] == a[n + 1 + i] && b[n + 1..][i] == b[n + 1 + i] {}
        }
        var vs := Reshaped(ws[1..], b[n + 1..]);
        us := [b[..n]] + vs;
        assert us[1..] == vs;
        assert b == b[..n] + " " + b[n + 1..];
      }
    }
  }

  lemma SpaceIsSpace()
    ensures IsSpace(' ')
  {
  }

  // The scanner

  function Lower(c: char): char {
    if 'A' <= c <= 'Z' then (c as int + 32) as char else c
  }

  /** Whether the scanner stands inside a literal, after a backslash, or on the second quote of a doubled one. */
  datatype Mode = Mode(quoted: bool, escaped: bool, doubled: bool)

  const START := Mode(false, false, false)

  /** The mode after a character; `next` is the character that follows it, if any. */
  function Advance(m: Mode, c: char, next: string): Mode {
    if m.escaped then m.(escaped := false)
    else if m.doubled then m.(doubled := false)
    else if c == '\\' then m.(escaped := true)
    else if c == '\'' then
      if m.quoted && next != "" && next[0] == '\'' then m.(doubled := true) else m.(quoted := !m.quoted)
    else m
  }

  predicate Outside(m: Mode) {
    !m.quoted && !m.escaped
  }

  function Scan(s: string, m: Mode): (r: string)
    ensures |r| == |s|
  {
    if s == "" then ""
    else [if Outside(m) then Lower(s[0]) else s[0]] + Scan(s[1..], Advance(m, s[0], s[1..]))
  }

  function NormalForm(q: string): string {
    Scan(Collapse(q), START)
  }

  /** A doubled quote inside a literal. */
  lemma ScanDoubled(s: string)
    requires |s| >= 2 && s[0] == s[1] == '\''
    ensures Scan(s, Mode(true, false, false)) == "''" + Scan(s[2..], Mode(true, false, false))
  {
    hide Scan, Lower;
    ScanFirst(s, Mode(true, false, false));
    assert s[1..][0] == '\'' && s[1..][1..] == s[2..];
    ScanFirst(s[1..], Mode(true, false, true));
  }

  /** One character of the scan, anywhere but on the second quote of a doubled one. */
  lemma ScanOne(s: string, quoted: bool, escaped: bool)
    requires s != "" && !(quoted && !escaped && |s| >= 2 && s[0] == s[1] == '\'')
    ensures var c := s[0];
            Scan(s, Mode(quoted, escaped, false)) ==
            if escaped then [c] + Scan(s[1..], Mode(quoted, false, false))
            else if c == '\\' then [c] + Scan(s[1..], Mode(quoted, true, false))
            else if c == '\'' then [c] + Scan(s[1..], Mode(!quoted, false, false))
            else [if quoted then c else Lower(c)] + Scan(s[1..], Mode(quoted, false, false))
  {
    hide Scan, Lower;
    QuotesStay();
    ScanFirst(s, Mode(quoted, escaped, false));
  }

  method NormalizeQuery(q: string) returns (r: string)
    ensures r == NormalForm(q)
  {
    var s := Collapse(q);
    hide Collapse, Scan, Lower;
    r := "";
    var quoted, escaped := false, false;
    var i := 0;
    assert s[0..] == s;
    while i < |s|
      invariant 0 <= i <= |s|
      invariant r + Scan(s[i..], Mode(quoted, escaped, false)) == Scan(s, START)
    {
      var c := s[i];
      var piece := [c];
      ghost var rest, before := s[i..], Scan(s[i..], Mode(quoted, escaped, false));
      assert rest[0] == c && rest[1..] == s[i + 1..];
      if escaped {
        ScanOne(rest, quoted, escaped);
        escaped := false;
      } else if c == '\\' {
        ScanOne(rest, quoted, escaped);
        escaped := true;
      } else if c == '\'' {
        if quoted && i + 1 < |s| && s[i + 1] == '\'' {
          assert rest[2..] == s[i + 2..];
          ScanDoubled(rest);
          piece := [c, s[i + 1]];
          i := i + 1;
        } else {
          ScanOne(rest, quoted, escaped);
          quoted := !quoted;
        }
      } else {
        ScanOne(rest, quoted, escaped);
        if !quoted { piece := [Lower(c)]; }
      }
      i := i + 1;
      assert before == piece + Scan(s[i..], Mode(quoted, escaped, false));
      Glued(r, piece, Scan(s[i..], Mode(quoted, escaped, false)));
      r := r + piece;
    }
    assert Scan(s[i..], Mode(quoted, escaped, false)) == "";
  }

  lemma Glued(a: string, b: string, c: string)
    ensures (a + b) + c == a + (b + c)
  {
  }

  lemma QuotesStay()
    ensures Lower('\'') == '\'' && Lower('\\') == '\\'
  {
  }

  lemma {:induction false} ScanKeepsShape(s: string, m: Mode)
    ensures SameShape(s, Scan(s, m))
  {
    if s != "" {
      ScanKeepsShape(s[1..], Advance(m, s[0], s[1..]));
      hide Advance, Scan;
      ScanFirst(s, m);
      var r, rest := Scan(s, m), Scan(s[1..], Advance(m, s[0], s[1..]));
      forall i | 0 <= i < |s| ensures if IsSpace(s[i]) then r[i] == s[i] else !IsSpace(r[i]) {
        if i > 0 { assert r[i] == rest[i - 1] && s[i] == s[1..][i - 1]; }
      }
    }
  }

  lemma ScanFirst(s: string, m: Mode)
    requires s != ""
    ensures Scan(s, m) == [if Outside(m) then Lower(s[0]) else s[0]] + Scan(s[1..], Advance(m, s[0], s[1..]))
  {
  }

  /** The scanner reads its own output as it read the input. */
  lemma {:induction false} ScanTwice(s: string, m: Mode)
    ensures Scan(Scan(s, m), m) == Scan(s, m)
  {
    if s != "" {
      var r := Scan(s, m);
      var next := Advance(m, s[0], s[1..]);
      assert r[1..] == Scan(s[1..], next);
      ScanTwice(s[1..], next);
      SameFirst(s[1..], next);
      assert Advance(m, r[0], r[1..]) == next;
    }
  }

  /** A doubled quote is recognised in the output where it was in the input. */
  lemma SameFirst(s: string, m: Mode)
    ensures s == "" <==> Scan(s, m) == ""
    ensures s != "" ==> (Scan(s, m)[0] == '\'' <==> s[0] == '\'')
  {
  }

  /** Normalizing is idempotent. */
  lemma NormalFormTwice(q: string)
    ensures NormalForm(NormalForm(q)) == NormalForm(q)
  {
    var c := Collapse(q);
    FieldsAreWords(q);
    ScanKeepsShape(c, START);
    ShapedLikeWords(Fields(q), NormalForm(q));
    ScanTwice(c, START);
  }

  // What shares a normal form

  function Modes(s: string, m: Mode): (ms: seq<Mode>)
    ensures |ms| == |s|
  {
    if s == "" then [] else [m] + Modes(s[1..], Advance(m, s[0], s[1..]))
  }

  predicate SameAt(m: Mode, a: char, b: char) {
    if Outside(m) then Lower(a) == Lower(b) else a == b
  }

  /** Same scanner modes throughout, and same characters but for ASCII case outside literals. */
  ghost predicate Agree(a: string, b: string, m: Mode) {
    && |a| == |b|
    && Modes(a, m) == Modes(b, m)
    && forall i | 0 <= i < |a| :: SameAt(Modes(a, m)[i], a[i], b[i])
  }

  /** Peels one position off an agreement, if the scanner moves on alike. */
  lemma AgreeNext(a: string, b: string, m: Mode)
    requires a != "" && b != "" && Advance(m, a[0], a[1..]) == Advance(m, b[0], b[1..])
    ensures Agree(a, b, m) <==> SameAt(m, a[0], b[0]) && Agree(a[1..], b[1..], Advance(m, a[0], a[1..]))
  {
    var x := Advance(m, a[0], a[1..]);
    hide Advance, SameAt;
    var ms, ns := Modes(a, m), Modes(b, m);
    assert ms == [m] + Modes(a[1..], x) && ns == [m] + Modes(b[1..], x);
    assert ms[1..] == Modes(a[1..], x) && ns[1..] == Modes(b[1..], x);
    assert ms == ns <==> ms[1..] == ns[1..] by { assert ms == [m] + ms[1..] && ns == [m] + ns[1..]; }
    if SameAt(m, a[0], b[0]) && Agree(a[1..], b[1..], x) {
      forall i | 0 <= i < |a| ensures SameAt(ms[i], a[i], b[i]) {
        if i > 0 { assert SameAt(Modes(a[1..], x)[i - 1], a[1..][i - 1], b[1..][i - 1]); }
      }
    }
    if Agree(a, b, m) {
      forall i | 0 <= i < |a| - 1 ensures SameAt(Modes(a[1..], x)[i], a[1..][i], b[1..][i]) {
        assert SameAt(ms[i + 1], a[i + 1], b[i + 1]);
      }
    }
  }

  lemma SameScanAdvance(a: string, b: string, m: Mode)
    requires a != "" && b != "" && Scan(a, m) == Scan(b, m)
    ensures SameAt(m, a[0], b[0]) && Advance(m, a[0], a[1..]) == Advance(m, b[0], b[1..])
  {
    var x, y := Advance(m, a[0], a[1..]), Advance(m, b[0], b[1..]);
    SameFirst(a[1..], x);
    SameFirst(b[1..], y);
    ScanFirst(a, m);
    ScanFirst(b, m);
    hide Scan;
    assert Scan(a, m)[0] == Scan(b, m)[0];
    assert Scan(a, m)[1..] == Scan(a[1..], x) && Scan(b, m)[1..] == Scan(b[1..], y);
  }

  lemma AgreeAdvance(a: string, b: string, m: Mode)
    requires |a| > 1 && Agree(a, b, m)
    ensures Advance(m, a[0], a[1..]) == Advance(m, b[0], b[1..])
  {
    assert Modes(a, m)[1] == Advance(m, a[0], a[1..]) && Modes(b, m)[1] == Advance(m, b[0], b[1..]);
  }

  lemma {:induction false} SameScanIff(a: string, b: string, m: Mode)
    ensures Scan(a, m) == Scan(b, m) <==> Agree(a, b, m)
  {
    if |a| == |b| > 0 {
      var x, y := Advance(m, a[0], a[1..]), Advance(m, b[0], b[1..]);
      SameScanIff(a[1..], b[1..], x);
      if Scan(a, m) == Scan(b, m) { SameScanAdvance(a, b, m); }
      if |a| > 1 && Agree(a, b, m) { AgreeAdvance(a, b, m); }
      ScanFirst(a, m);
      ScanFirst(b, m);
      if |a| == 1 {
        OneChar(a, b, m);
      } else if x == y {
        AgreeNext(a, b, m);
        hide Agree, Advance, SameAt, Modes;
        assert Scan(a, m)[1..] == Scan(a[1..], x) && Scan(b, m)[1..] == Scan(b[1..], x);
        SameAtMeans(m, a[0], b[0]);
      }
    } else {
      hide Modes;
    }
  }

  lemma SameAtMeans(m: Mode, a: char, b: char)
    ensures SameAt(m, a, b) <==> (if Outside(m) then Lower(a) else a) == (if Outside(m) then Lower(b) else b)
  {
  }

  lemma OneChar(a: string, b: string, m: Mode)
    requires |a| == |b| == 1
    ensures Scan(a, m) == Scan(b, m) <==> Agree(a, b, m)
  {
    assert Modes(a, m) == [m] + Modes("", Advance(m, a[0], a[1..])) == [m];
    assert Modes(b, m) == [m] + Modes("", Advance(m, b[0], b[1..])) == [m];
    assert Scan(a, m) == [if Outside(m) then Lower(a[0]) else a[0]]
           && Scan(b, m) == [if Outside(m) then Lower(b[0]) else b[0]];
    assert Agree(a, b, m) ==> SameAt(Modes(a, m)[0], a[0], b[0]);
  }

  /** Two queries share a normal form exactly if, white space collapsed, they agree in this sense. */
  lemma SameNormalFormIff(p: string, q: string)
    ensures NormalForm(p) == NormalForm(q) <==> Agree(Collapse(p), Collapse(q), START)
  {
    SameScanIff(Collapse(p), Collapse(q), START);
  }

  /** White space is collapsed inside literals too: these two queries ask for different strings. */
  lemma LiteralSpacesCollide()
    ensures NormalForm("'a  b'") == NormalForm("'a b'")
  {
    TwoWords("'a", "b'", "  ");
    TwoWords("'a", "b'", " ");
    assert "'a" + "  " + "b'" == "'a  b'" && "'a" + " " + "b'" == "'a b'";
  }

  lemma TwoWords(a: string, b: string, gap: string)
    requires Word(a) && Word(b) && gap != "" && forall c <- gap :: c == ' '
    ensures Fields(a + gap + b) == [a, b]
  {
    hide Fields, IsSpace;
    SpaceIsSpace();
    assert (gap + b)[0] == gap[0] == ' ' by { assert gap[0] in gap; }
    WordFirst(a, gap + b);
    assert a + (gap + b) == a + gap + b;
    SkipWhite(gap, b);
    WordFirst(b, "");
    assert b + "" == b;
    assert Fields("") == [] by { NoFields(); }
  }

  lemma NoFields()
    ensures Fields("") == []
  {
  }

  // What collapsing does

  ghost predicate White(s: string) {
    forall c <- s :: IsSpace(c)
  }

  /** Words and what stands before each, and after the last, as one string. */
  ghost function Apart(gaps: seq<string>, ws: seq<string>): string
    requires |gaps| == |ws| + 1
    decreases |ws|
  {
    if ws == [] then gaps[0] else gaps[0] + ws[0] + Apart(gaps[1..], ws[1..])
  }

  lemma {:induction false} SkipWhite(gap: string, s: string)
    requires White(gap)
    ensures Fields(gap + s) == Fields(s)
  {
    if gap == "" {
      assert gap + s == s;
    } else {
      assert (gap + s)[1..] == gap[1..] + s && (gap + s)[0] == gap[0];
      assert gap[0] in gap && forall c <- gap[1..] :: c in gap;
      SkipWhite(gap[1..], s);
    }
  }

  lemma {:induction false} FieldsOfApart(gaps: seq<string>, ws: seq<string>)
    requires Words(ws) && |gaps| == |ws| + 1 && (forall g <- gaps :: White(g))
    requires forall i | 0 < i < |ws| :: gaps[i] != ""
    ensures Fields(Apart(gaps, ws)) == ws
    decreases |ws|
  {
    hide IsSpace, Fields;
    assert gaps[0] in gaps;
    if ws == [] {
      SkipWhite(gaps[0], "");
      assert gaps[0] + "" == gaps[0];
      NoFields();
    } else {
      var rest := Apart(gaps[1..], ws[1..]);
      assert forall g <- gaps[1..] :: g in gaps;
      FieldsOfApart(gaps[1..], ws[1..]);
      StartsWhite(gaps[1..], ws[1..]);
      SkipWhite(gaps[0], ws[0] + rest);
      WordFirst(ws[0], rest);
      assert gaps[0] + ws[0] + rest == gaps[0] + (ws[0] + rest);
      assert ws == [ws[0]] + ws[1..];
    }
  }

  lemma StartsWhite(gaps: seq<string>, ws: seq<string>)
    requires |gaps| == |ws| + 1 && White(gaps[0]) && (ws != [] ==> gaps[0] != "")
    ensures Apart(gaps, ws) == "" || IsSpace(Apart(gaps, ws)[0])
  {
    if gaps[0] != "" { assert Apart(gaps, ws)[0] == gaps[0][0] && gaps[0][0] in gaps[0]; }
  }

  /**
   * Whatever white space stands between, before and after words, the collapsed query has single spaces between them.
   */
  lemma CollapseMeans(gaps: seq<string>, ws: seq<string>)
    requires Words(ws) && |gaps| == |ws| + 1 && (forall g <- gaps :: White(g))
    requires forall i | 0 < i < |ws| :: gaps[i] != ""
    ensures Collapse(Apart(gaps, ws)) == Spaced(ws)
    ensures forall i | 0 < i < |ws| :: Spaced(ws) == Spaced(ws[..i]) + " " + Spaced(ws[i..])
  {
    hide IsSpace, Fields;
    FieldsOfApart(gaps, ws);
    forall i | 0 < i < |ws| ensures Spaced(ws) == Spaced(ws[..i]) + " " + Spaced(ws[i..]) { SpacedAt(ws, i); }
  }

  lemma {:induction false} SpacedAt(ws: seq<string>, i: nat)
    requires 0 < i < |ws|
    ensures Spaced(ws) == Spaced(ws[..i]) + " " + Spaced(ws[i..])
  {
    if i > 1 {
      SpacedAt(ws[1..], i - 1);
      assert ws[1..][..i - 1] == ws[..i][1..] && ws[1..][i - 1..] == ws[i..];
    }
  }
}
