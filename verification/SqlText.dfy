/** Query text as a list of tokens, and normalizing as lower-casing the ones outside literals. */
module SqlText {
  import opened Prelude
  import opened Normalize
  import QueryCache

  /** A character standing for itself, one after a backslash, or a doubled quote. */
  datatype Piece = Char(c: char) | Escape(c: char) | Doubled

  datatype Token = Code(piece: Piece) | Literal(body: seq<Piece>)

  /** What is left after the last whole token: perhaps a lone backslash or a literal that never ends. */
  datatype Tail = Nothing | Slash | Open(body: seq<Piece>, slash: bool)

  datatype Text = Text(tokens: seq<Token>, tail: Tail)

  function PieceText(p: Piece): string {
    match p
    case Char(c) => [c]
    case Escape(c) => ['\\', c]
    case Doubled => "''"
  }

  function Body(ps: seq<Piece>): string {
    if ps == [] then "" else PieceText(ps[0]) + Body(ps[1..])
  }

  function TokenText(t: Token): string {
    match t
    case Code(p) => PieceText(p)
    case Literal(b) => "'" + Body(b) + "'"
  }

  function TailText(t: Tail): string {
    match t
    case Nothing => ""
    case Slash => "\\"
    case Open(b, slash) => "'" + Body(b) + if slash then "\\" else ""
  }

  function Written(t: Text): string
    decreases |t.tokens|
  {
    if t.tokens == [] then TailText(t.tail) else TokenText(t.tokens[0]) + Written(Rest(t))
  }

  function Rest(t: Text): Text
    requires t.tokens != []
  {
    t.(tokens := t.tokens[1..])
  }

  // Which texts are meant

  predicate Plain(p: Piece) {
    p.Char? ==> p.c != '\'' && p.c != '\\'
  }

  predicate ProperToken(t: Token) {
    match t
    case Code(p) => Plain(p) && !p.Doubled?
    case Literal(b) => forall p <- b :: Plain(p)
  }

  predicate ProperTail(t: Tail) {
    t.Open? ==> forall p <- t.body :: Plain(p)
  }

  predicate StartsQuoted(t: Text) {
    if t.tokens == [] then t.tail.Open? else t.tokens[0].Literal?
  }

  /** No literal directly follows another, as their quotes would read as a doubled one. */
  predicate Proper(t: Text)
    decreases |t.tokens|
  {
    if t.tokens == [] then ProperTail(t.tail)
    else ProperToken(t.tokens[0]) && Proper(Rest(t)) && (t.tokens[0].Literal? ==> !StartsQuoted(Rest(t)))
  }

  /** What can follow the body of a literal: the end, a lone backslash, or a quote that is not doubled. */
  predicate Ends(s: string) {
    s == "" || s == "\\" || (s[0] == '\'' && (|s| == 1 || s[1] != '\''))
  }

  lemma StartOf(t: Text)
    requires Proper(t)
    ensures StartsQuoted(t) <==> Written(t) != "" && Written(t)[0] == '\''
    ensures t.tokens != [] ==> Written(t) == TokenText(t.tokens[0]) + Written(Rest(t))
  {
  }

  lemma BodyFirst(ps: seq<Piece>, s: string)
    requires ps != []
    ensures Body(ps) + s == PieceText(ps[0]) + (Body(ps[1..]) + s)
  {
  }

  // Every string is written by exactly one text

  lemma {:induction false} LexBody(s: string) returns (b: seq<Piece>, rest: string)
    ensures s == Body(b) + rest && Ends(rest) && forall p <- b :: Plain(p)
    ensures |rest| <= |s|
    decreases |s|
  {
    if Ends(s) {
      b, rest := [], s;
    } else {
      var p := if s[0] == '\'' then Doubled else if s[0] == '\\' then Escape(s[1]) else Char(s[0]);
      var n := |PieceText(p)|;
      var d;
      d, rest := LexBody(s[n..]);
      b := [p] + d;
      BodyFirst(b, rest);
      assert b[1..] == d && s == PieceText(p) + s[n..];
    }
  }

  lemma {:induction false} EveryQueryIsText(s: string) returns (t: Text)
    ensures Proper(t) && Written(t) == s
    decreases |s|
  {
    hide Body, Written, Proper;
    if s == "" || s == "\\" {
      t := JustTail(if s == "" then Nothing else Slash);
    } else if s[0] == '\'' {
      var b, rest := LexBody(s[1..]);
      assert s == "'" + s[1..];
      if rest == "" || rest == "\\" {
        t := JustTail(Open(b, rest != ""));
      } else {
        var u := EveryQueryIsText(rest[1..]);
        t := WithToken(Literal(b), u);
        assert rest == "'" + rest[1..];
      }
    } else {
      var p := if s[0] == '\\' then Escape(s[1]) else Char(s[0]);
      var n := |PieceText(p)|;
      var u := EveryQueryIsText(s[n..]);
      t := WithToken(Code(p), u);
      assert s == PieceText(p) + s[n..];
    }
  }

  lemma JustTail(e: Tail) returns (t: Text)
    requires ProperTail(e)
    ensures Proper(t) && Written(t) == TailText(e)
  {
    t := Text([], e);
  }

  lemma WithToken(k: Token, u: Text) returns (t: Text)
    requires Proper(u) && ProperToken(k) && (k.Literal? ==> Written(u) == "" || Written(u)[0] != '\'')
    ensures Proper(t) && t == Text([k] + u.tokens, u.tail) && Written(t) == TokenText(k) + Written(u)
  {
    t := Text([k] + u.tokens, u.tail);
    assert Rest(t) == u;
    StartOf(u);
  }

  /** A body ends at the first place it can. */
  lemma {:induction false} BodyIsUnique(b: seq<Piece>, x: string, d: seq<Piece>, y: string)
    requires (forall p <- b :: Plain(p)) && (forall p <- d :: Plain(p)) && Ends(x) && Ends(y)
    requires Body(b) + x == Body(d) + y
    ensures b == d && x == y
  {
    if b != [] && d != [] {
      BodyFirst(b, x);
      BodyFirst(d, y);
      var u, v := Body(b[1..]) + x, Body(d[1..]) + y;
      hide Body;
      assert b[0] in b && d[0] in d;
      SamePiece(b[0], u, d[0], v);
      assert (forall p <- b[1..] :: p in b) && (forall p <- d[1..] :: p in d);
      BodyIsUnique(b[1..], x, d[1..], y);
      assert b == [b[0]] + b[1..] && d == [d[0]] + d[1..];
    } else if b != [] {
      BodyFirst(b, x);
      assert b[0] in b && Body(d) + y == y;
      hide Body;
      NotAnEnd(b[0], Body(b[1..]) + x);
    } else if d != [] {
      BodyFirst(d, y);
      assert d[0] in d && Body(b) + x == x;
      hide Body;
      NotAnEnd(d[0], Body(d[1..]) + y);
    } else {
      assert Body(b) + x == x && Body(d) + y == y;
    }
  }

  lemma SamePiece(p: Piece, u: string, q: Piece, v: string)
    requires Plain(p) && Plain(q) && PieceText(p) + u == PieceText(q) + v
    ensures p == q && u == v
  {
    var s, t := PieceText(p) + u, PieceText(q) + v;
    assert s[0] == t[0];
    if !p.Char? && !q.Char? { assert s[1] == t[1]; }
    assert u == s[|PieceText(p)|..] && v == t[|PieceText(q)|..];
  }

  lemma NotAnEnd(p: Piece, u: string)
    requires Plain(p)
    ensures !Ends(PieceText(p) + u)
  {
    var s := PieceText(p) + u;
    assert s[0] == PieceText(p)[0];
    if !p.Char? { assert s[1] == PieceText(p)[1]; }
  }

  /** What follows the opening quote of a text that starts with one. */
  lemma AfterQuote(t: Text) returns (b: seq<Piece>, end: string)
    requires Proper(t) && StartsQuoted(t)
    ensures Written(t) == "'" + (Body(b) + end) && Ends(end) && forall p <- b :: Plain(p)
    ensures t.tokens == [] ==> t.tail == Open(b, end == "\\") && (end == "" || end == "\\")
    ensures t.tokens != [] ==>
              t.tokens[0] == Literal(b) && end != "" && end[0] == '\'' && end[1..] == Written(Rest(t))
  {
    hide Body, Written, Proper;
    if t.tokens == [] {
      b, end := t.tail.body, if t.tail.slash then "\\" else "";
      OpenText(t);
    } else {
      b, end := t.tokens[0].body, "'" + Written(Rest(t));
      LiteralText(t);
    }
  }

  lemma OpenText(t: Text)
    requires Proper(t) && t.tokens == [] && t.tail.Open?
    ensures Written(t) == "'" + (Body(t.tail.body) + if t.tail.slash then "\\" else "")
    ensures forall p <- t.tail.body :: Plain(p)
  {
  }

  lemma LiteralText(t: Text)
    requires Proper(t) && t.tokens != [] && t.tokens[0].Literal?
    ensures Written(t) == "'" + (Body(t.tokens[0].body) + ("'" + Written(Rest(t))))
    ensures (forall p <- t.tokens[0].body :: Plain(p)) && Ends("'" + Written(Rest(t)))
  {
    hide Body, Written, StartsQuoted;
    StartOf(t);
    StartOf(Rest(t));
    var b, rest := Body(t.tokens[0].body), Written(Rest(t));
    assert "'" + b + "'" + rest == "'" + (b + ("'" + rest));
    hide Proper;
    if rest != "" { assert ("'" + rest)[1] == rest[0]; }
  }

  lemma {:induction false} TextIsUnique(t: Text, u: Text)
    requires Proper(t) && Proper(u) && Written(t) == Written(u)
    ensures t == u
    decreases |t.tokens|
  {
    StartOf(t);
    StartOf(u);
    if StartsQuoted(t) {
      var b, x := AfterQuote(t);
      var d, y := AfterQuote(u);
      assert Written(t)[1..] == Body(b) + x && Written(u)[1..] == Body(d) + y;
      BodyIsUnique(b, x, d, y);
      if t.tokens != [] {
        assert Written(Rest(t)) == Written(Rest(u));
        TextIsUnique(Rest(t), Rest(u));
        SameRest(t, u);
      }
    } else if t.tokens != [] && u.tokens != [] {
      SamePiece(t.tokens[0].piece, Written(Rest(t)), u.tokens[0].piece, Written(Rest(u)));
      TextIsUnique(Rest(t), Rest(u));
      SameRest(t, u);
    } else {
      ShortText(t);
      ShortText(u);
    }
  }

  lemma SameRest(t: Text, u: Text)
    requires t.tokens != [] && u.tokens != [] && t.tokens[0] == u.tokens[0] && Rest(t) == Rest(u)
    ensures t == u
  {
    assert t.tokens == [t.tokens[0]] + t.tokens[1..] && u.tokens == [u.tokens[0]] + u.tokens[1..];
  }

  lemma ShortText(t: Text)
    requires Proper(t) && !StartsQuoted(t)
    ensures t.tokens == [] <==> Written(t) == "" || Written(t) == "\\"
    ensures t.tokens == [] ==> t.tail == if Written(t) == "" then Nothing else Slash
  {
    if t.tokens != [] {
      var s := Written(t);
      assert s == PieceText(t.tokens[0].piece) + Written(Rest(t));
      assert s[0] == PieceText(t.tokens[0].piece)[0];
    }
  }

  // What the scanner does to a text

  const QUOTED := Mode(true, false, false)

  lemma ScanPiece(p: Piece, s: string)
    requires Plain(p)
    ensures Scan(PieceText(p) + s, QUOTED) == PieceText(p) + Scan(s, QUOTED)
  {
    var r := PieceText(p) + s;
    hide Scan;
    if p.Doubled? {
      ScanDoubled(r);
      assert r[2..] == s;
    } else {
      ScanFirst(r, QUOTED);
      if p.Escape? {
        assert r[1..] == [p.c] + s && r[1..][1..] == s;
        ScanFirst(r[1..], Mode(true, true, false));
      } else {
        assert r[1..] == s;
      }
    }
  }

  lemma {:induction false} ScanBody(b: seq<Piece>, s: string)
    requires forall p <- b :: Plain(p)
    ensures Scan(Body(b) + s, QUOTED) == Body(b) + Scan(s, QUOTED)
  {
    hide Scan;
    if b == [] {
      assert Body(b) + s == s;
    } else {
      BodyFirst(b, s);
      assert b[0] in b && forall p <- b[1..] :: p in b;
      ScanPiece(b[0], Body(b[1..]) + s);
      ScanBody(b[1..], s);
      BodyFirst(b, Scan(s, QUOTED));
    }
  }

  lemma ScanQuote(s: string)
    ensures Scan("'" + s, START) == "'" + Scan(s, QUOTED)
    ensures s == "" || s[0] != '\'' ==> Scan("'" + s, QUOTED) == "'" + Scan(s, START)
  {
    assert ("'" + s)[1..] == s;
    ScanFirst("'" + s, START);
    ScanFirst("'" + s, QUOTED);
    hide Scan;
  }

  /** Code is lower-cased, a character after a backslash is not. */
  lemma ScanCode(p: Piece, s: string)
    requires Plain(p) && !p.Doubled?
    ensures Scan(PieceText(p) + s, START) ==
            PieceText(if p.Char? && 'A' <= p.c <= 'Z' then Char((p.c as int + 32) as char) else p) + Scan(s, START)
  {
    var r := PieceText(p) + s;
    hide Scan;
    ScanFirst(r, START);
    if p.Escape? {
      assert r[1..] == [p.c] + s && r[1..][1..] == s;
      ScanFirst(r[1..], Mode(false, true, false));
    } else {
      assert r[1..] == s;
    }
  }

  lemma ScanLiteral(b: seq<Piece>, s: string)
    requires (forall p <- b :: Plain(p)) && (s == "" || s[0] != '\'')
    ensures Scan("'" + Body(b) + "'" + s, START) == "'" + Body(b) + "'" + Scan(s, START)
  {
    hide Scan, Body;
    assert "'" + Body(b) + "'" + s == "'" + (Body(b) + ("'" + s));
    ScanQuote(Body(b) + ("'" + s));
    ScanBody(b, "'" + s);
    ScanQuote(s);
  }

  lemma ScanTail(t: Tail)
    requires ProperTail(t)
    ensures Scan(TailText(t), START) == TailText(t)
  {
    if t.Open? {
      var end := if t.slash then "\\" else "";
      assert Scan(end, QUOTED) == end;
      hide Scan, Body;
      assert TailText(t) == "'" + (Body(t.body) + end);
      ScanQuote(Body(t.body) + end);
      ScanBody(t.body, end);
    }
  }

  /** `u` is `t` with `A` to `Z` as `a` to `z` where they are code, and everything else unchanged. */
  ghost predicate LowerCased(t: Text, u: Text) {
    && |t.tokens| == |u.tokens| && t.tail == u.tail
    && forall i | 0 <= i < |t.tokens| :: LowerToken(t.tokens[i], u.tokens[i])
  }

  ghost predicate LowerToken(t: Token, u: Token) {
    if t.Code? && t.piece.Char? && 'A' <= t.piece.c <= 'Z' then
      u.Code? && u.piece.Char? && u.piece.c as int - 'a' as int == t.piece.c as int - 'A' as int
    else
      u == t
  }

  lemma {:induction false} ScanText(t: Text, u: Text)
    requires Proper(t) && LowerCased(t, u)
    ensures Scan(Written(t), START) == Written(u) && Proper(u)
    decreases |t.tokens|
  {
    hide Scan;
    if t.tokens == [] {
      ScanTail(t.tail);
    } else {
      var k, rest := t.tokens[0], Rest(t);
      assert LowerToken(k, u.tokens[0]);
      assert LowerCased(rest, Rest(u)) by {
        forall i | 0 <= i < |rest.tokens| ensures LowerToken(rest.tokens[i], Rest(u).tokens[i]) {
          assert LowerToken(t.tokens[i + 1], u.tokens[i + 1]);
        }
      }
      ScanText(rest, Rest(u));
      StartOf(t);
      StartOf(rest);
      if k.Code? {
        ScanCode(k.piece, Written(rest));
      } else {
        assert Written(t) == "'" + Body(k.body) + "'" + Written(rest);
        ScanLiteral(k.body, Written(rest));
      }
      SameStart(rest, Rest(u));
    }
  }

  lemma SameStart(t: Text, u: Text)
    requires LowerCased(t, u)
    ensures StartsQuoted(t) <==> StartsQuoted(u)
  {
    if t.tokens != [] { assert LowerToken(t.tokens[0], u.tokens[0]); }
  }

  /**
   * The normal form of a query: its white space collapsed and its code in lower case, its literals, with their
   * doubled quotes and escaped characters, untouched.
   */
  lemma NormalFormMeans(q: string, t: Text, u: Text)
    requires Proper(t) && Written(t) == Collapse(q) && LowerCased(t, u)
    ensures NormalForm(q) == Written(u)
  {
    ScanText(t, u);
  }

  lemma OneLowerCased(t: Text) returns (u: Text)
    ensures LowerCased(t, u)
  {
    var lower := (k: Token) =>
      if k.Code? && k.piece.Char? && 'A' <= k.piece.c <= 'Z' then Code(Char((k.piece.c as int + 32) as char)) else k;
    u := Text(seq(|t.tokens|, i requires 0 <= i < |t.tokens| => lower(t.tokens[i])), t.tail);
  }

  /** The same token, or the same letter as code in either case. */
  ghost predicate SameToken(k: Token, l: Token) {
    || k == l
    || (k.Code? && l.Code? && k.piece.Char? && l.piece.Char? && SameLetter(k.piece.c, l.piece.c))
  }

  ghost predicate SameLetter(a: char, b: char) {
    || ('A' <= a <= 'Z' && b as int == a as int + 32)
    || ('A' <= b <= 'Z' && a as int == b as int + 32)
  }

  ghost predicate SameText(t: Text, u: Text) {
    && |t.tokens| == |u.tokens| && t.tail == u.tail
    && forall i | 0 <= i < |t.tokens| :: SameToken(t.tokens[i], u.tokens[i])
  }

  lemma LowerTokens(k: Token, l: Token, k0: Token, l0: Token)
    requires LowerToken(k, k0) && LowerToken(l, l0)
    ensures k0 == l0 <==> SameToken(k, l)
  {
  }

  /**
   * Two queries share a cache key exactly if they name the same tables and, white space collapsed, are the same
   * tokens but for the case of code: queries whose literals differ never share one.
   */
  lemma KeysAgreeOnTokens(p: string, q: string, ps: seq<string>, qs: seq<string>, t: Text, u: Text)
    requires QueryCache.ProperNames(ps) && QueryCache.ProperNames(qs)
    requires Proper(t) && Written(t) == Collapse(p) && Proper(u) && Written(u) == Collapse(q)
    ensures QueryCache.Key(p, ps) == QueryCache.Key(q, qs) <==> ps == qs && SameText(t, u)
  {
    hide QueryCache.Key, NormalForm, Collapse, Proper, Written, Agree;
    QueryCache.KeysAgreeIff(p, ps, q, qs);
    SameNormalFormIff(p, q);
    var t0 := OneLowerCased(t);
    var u0 := OneLowerCased(u);
    NormalFormMeans(p, t, t0);
    NormalFormMeans(q, u, u0);
    if NormalForm(p) == NormalForm(q) {
      ScanText(t, t0);
      ScanText(u, u0);
      TextIsUnique(t0, u0);
    }
    LowerCasedTexts(t, u, t0, u0);
  }

  lemma LowerCasedTexts(t: Text, u: Text, t0: Text, u0: Text)
    requires LowerCased(t, t0) && LowerCased(u, u0)
    ensures t0 == u0 <==> SameText(t, u)
  {
    if |t.tokens| == |u.tokens| {
      forall i | 0 <= i < |t.tokens| ensures t0.tokens[i] == u0.tokens[i] <==> SameToken(t.tokens[i], u.tokens[i]) {
        LowerTokens(t.tokens[i], u.tokens[i], t0.tokens[i], u0.tokens[i]);
      }
    }
  }

  // Queries with one literal

  ghost predicate Unquoted(s: string) {
    '\'' !in s && '\\' !in s
  }

  ghost predicate LowerOf(a: string, b: string) {
    |a| == |b| && forall i | 0 <= i < |a| ::
      if 'A' <= a[i] <= 'Z' then b[i] as int - 'a' as int == a[i] as int - 'A' as int else b[i] == a[i]
  }

  lemma {:induction false} ScanUnquoted(a: string, lower: string, s: string)
    requires Unquoted(a) && LowerOf(a, lower)
    ensures Scan(a + s, START) == lower + Scan(s, START) && Unquoted(lower)
  {
    hide Scan;
    if a == "" {
      assert a + s == s && lower + Scan(s, START) == Scan(s, START);
    } else {
      assert a + s == PieceText(Char(a[0])) + (a[1..] + s);
      ScanCode(Char(a[0]), a[1..] + s);
      ScanUnquoted(a[1..], lower[1..], s);
      assert lower == [lower[0]] + lower[1..];
    }
  }

  lemma {:induction false} ScanInside(a: string, s: string)
    requires Unquoted(a)
    ensures Scan(a + s, QUOTED) == a + Scan(s, QUOTED)
  {
    hide Scan;
    if a == "" {
      assert a + s == s && a + Scan(s, QUOTED) == Scan(s, QUOTED);
    } else {
      assert a + s == PieceText(Char(a[0])) + (a[1..] + s);
      ScanPiece(Char(a[0]), a[1..] + s);
      ScanInside(a[1..], s);
    }
  }

  /** The literal stays as it is, what surrounds it becomes lower case. */
  lemma LiteralIsKept(a: string, lit: string, b: string, a0: string, b0: string)
    requires Unquoted(a) && Unquoted(lit) && Unquoted(b) && LowerOf(a, a0) && LowerOf(b, b0)
    requires Collapse(a + "'" + lit + "'" + b) == a + "'" + lit + "'" + b
    ensures NormalForm(a + "'" + lit + "'" + b) == a0 + "'" + lit + "'" + b0
  {
    hide Scan, Collapse;
    var tail := "'" + b;
    assert a + "'" + lit + "'" + b == a + ("'" + (lit + tail));
    ScanUnquoted(a, a0, "'" + (lit + tail));
    ScanQuote(lit + tail);
    ScanInside(lit, tail);
    ScanQuote(b);
    ScanUnquoted(b, b0, "");
    assert b + "" == b && b0 + Scan("", START) == b0 by { assert Scan("", START) == ""; }
  }

  lemma {:induction false} FirstQuote(a: string, x: string, b: string, y: string)
    requires '\'' !in a && '\'' !in b && a + "'" + x == b + "'" + y
    ensures a == b && x == y
  {
    var s, t := a + "'" + x, b + "'" + y;
    assert s[|a|] == '\'' && t[|b|] == '\'';
    assert (forall i | 0 <= i < |a| :: s[i] == a[i]) && (forall i | 0 <= i < |b| :: t[i] == b[i]);
    assert |a| == |b|;
    assert a == s[..|a|] && b == t[..|b|] && x == s[|a| + 1..] && y == t[|b| + 1..];
  }

  /** Queries whose literals differ have different keys. */
  lemma LiteralsKeepKeysApart(a: string, lit: string, b: string, c: string, other: string, d: string,
                              ps: seq<string>, qs: seq<string>)
    requires Unquoted(a) && Unquoted(lit) && Unquoted(b) && Unquoted(c) && Unquoted(other) && Unquoted(d)
    requires Collapse(a + "'" + lit + "'" + b) == a + "'" + lit + "'" + b
    requires Collapse(c + "'" + other + "'" + d) == c + "'" + other + "'" + d
    requires QueryCache.ProperNames(ps) && QueryCache.ProperNames(qs) && lit != other
    ensures QueryCache.Key(a + "'" + lit + "'" + b, ps) != QueryCache.Key(c + "'" + other + "'" + d, qs)
  {
    hide QueryCache.Key, QueryCache.ProperNames, NormalForm, Collapse;
    var p, q := a + "'" + lit + "'" + b, c + "'" + other + "'" + d;
    QueryCache.KeysAgreeIff(p, ps, q, qs);
    var a0, b0, c0, d0 := LowerString(a), LowerString(b), LowerString(c), LowerString(d);
    LiteralIsKept(a, lit, b, a0, b0);
    LiteralIsKept(c, other, d, c0, d0);
    ScanUnquoted(a, a0, "");
    ScanUnquoted(c, c0, "");
    if NormalForm(p) == NormalForm(q) {
      assert NormalForm(p) == a0 + "'" + (lit + "'" + b0) && NormalForm(q) == c0 + "'" + (other + "'" + d0);
      FirstQuote(a0, lit + "'" + b0, c0, other + "'" + d0);
      FirstQuote(lit, b0, other, d0);
    }
  }

  ghost function LowerString(a: string): (b: string)
    ensures LowerOf(a, b)
  {
    seq(|a|, i requires 0 <= i < |a| => if 'A' <= a[i] <= 'Z' then (a[i] as int + 32) as char else a[i])
  }
}
