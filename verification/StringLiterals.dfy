/** Single-quoted string literals: the token shape the lexer accepts and the unescaping loop
    that turns the matched text into the string value. */
module StringLiterals {

  /** How one character is written inside a literal. */
  function EscapeChar(c: char): string {
    if c == '\\' then "\\\\"
    else if c == '\'' then "\\'"
    else if c == '\n' then "\\n"
    else if c == '\t' then "\\t"
    else [c]
  }

  function Escape(s: string): string {
    if s == "" then "" else EscapeChar(s[0]) + Escape(s[1..])
  }

  /** What the character after a backslash stands for; an unknown escape keeps both. */
  function UnescapePair(c: char): string {
    if c == 'n' then "\n"
    else if c == 't' then "\t"
    else if c == '\\' then "\\"
    else if c == '\'' then "'"
    else ['\\', c]
  }

  function Unescape(s: string): string {
    if s == "" then ""
    else if s[0] != '\\' then [s[0]] + Unescape(s[1..])
    else if |s| == 1 then "\\"
    else UnescapePair(s[1]) + Unescape(s[2..])
  }

  lemma UnescapeAt(s: string, i: nat)
    requires i < |s|
    ensures Unescape(s[i..]) ==
            if s[i] != '\\' then [s[i]] + Unescape(s[i + 1..])
            else if i + 1 == |s| then "\\"
            else UnescapePair(s[i + 1]) + Unescape(s[i + 2..])
  {
    assert s[i..][1..] == s[i + 1..];
    if i + 1 < |s| {
      assert s[i..][2..] == s[i + 2..];
    }
  }

  /** The unescaping loop of the lexer, on the text between the quotes. */
  method LexString(raw: string) returns (result: string)
    requires |raw| >= 2
    ensures result == Unescape(raw[1..|raw| - 1])
  {
    hide Unescape, UnescapePair;
    var inner := raw[1..|raw| - 1];
    result := "";
    var i := 0;
    assert inner[0..] == inner;
    while i < |inner|
      invariant 0 <= i <= |inner|
      invariant Unescape(inner) == result + Unescape(inner[i..])
    {
      UnescapeAt(inner, i);
      var ch := inner[i];
      i := i + 1;
      if ch == '\\' {
        if i < |inner| {
          result := result + UnescapePair(inner[i]);
          i := i + 1;
        } else {
          result := result + "\\";
          UnescapeEmpty();
          assert inner[i..] == "";
        }
      } else {
        result := result + [ch];
      }
    }
    UnescapeEmpty();
    assert inner[i..] == "";
  }

  lemma UnescapeEmpty()
    ensures Unescape("") == ""
  {
  }

  /** Where the literal that starts in front of `s` ends: the number of characters before
      the first quote that no backslash escapes. A backslash escapes any character but a
      line break. None if there is no such quote. */
  function ClosingQuote(s: string): (r: int)
    ensures -1 <= r < |s|
  {
    if s == "" then -1
    else if s[0] == '\'' then 0
    else if s[0] == '\\' then
      if |s| < 2 || s[1] == '\n' then -1
      else
        var k := ClosingQuote(s[2..]);
        if k < 0 then -1 else k + 2
    else
      var k := ClosingQuote(s[1..]);
      if k < 0 then -1 else k + 1
  }

  lemma EscapeCharShape(c: char, rest: string)
    ensures Unescape(EscapeChar(c) + rest) == [c] + Unescape(rest)
    ensures var k := ClosingQuote(rest);
            ClosingQuote(EscapeChar(c) + rest) == if k < 0 then -1 else |EscapeChar(c)| + k
  {
    var s := EscapeChar(c) + rest;
    if |EscapeChar(c)| == 1 {
      assert s[1..] == rest;
    } else {
      assert s[2..] == rest;
    }
  }

  /** Unescaping undoes escaping, for every string. */
  lemma {:induction false} EscapeRoundTrip(s: string)
    ensures Unescape(Escape(s)) == s
  {
    if s != "" {
      EscapeRoundTrip(s[1..]);
      EscapeCharShape(s[0], Escape(s[1..]));
    }
  }

  /** The first quote an escaped text leaves unescaped is the one that closes the literal,
      whatever follows it in the query. */
  lemma {:induction false} EscapedTextIsClosed(s: string, rest: string)
    ensures ClosingQuote(Escape(s) + "'" + rest) == |Escape(s)|
  {
    if s == "" {
      assert Escape(s) + "'" + rest == "'" + rest;
    } else {
      EscapedTextIsClosed(s[1..], rest);
      EscapeCharShape(s[0], Escape(s[1..]) + "'" + rest);
      assert Escape(s) + "'" + rest == EscapeChar(s[0]) + (Escape(s[1..]) + "'" + rest);
    }
  }

  /** Main result: wherever a string is written as an escaped literal, the lexer's token is
      exactly that literal and its value is exactly that string. */
  lemma LiteralRoundTrip(s: string, rest: string)
    ensures var text := "'" + Escape(s) + "'" + rest;
            var end := ClosingQuote(text[1..]);
            && end >= 0
            && text[..end + 2] == "'" + Escape(s) + "'"
            && Unescape(text[1..end + 1]) == s
  {
    var text := "'" + Escape(s) + "'" + rest;
    assert text[1..] == Escape(s) + "'" + rest;
    EscapedTextIsClosed(s, rest);
    EscapeRoundTrip(s);
    assert text[1..|Escape(s)| + 1] == Escape(s);
  }

  /** The value of any literal can be written again: escaping it gives a literal with the
      same value, so values and canonical literals correspond one to one. */
  lemma CanonicalLiteral(s: string, t: string)
    ensures Escape(s) == Escape(t) ==> s == t
    ensures Unescape(Escape(Unescape(s))) == Unescape(s)
  {
    EscapeRoundTrip(s);
    EscapeRoundTrip(t);
    EscapeRoundTrip(Unescape(s));
  }

  // ---------------------------------------------------------------------------
  // Every text between quotes
  // ---------------------------------------------------------------------------

  /** A character that is no backslash, or a backslash with the character after it. */
  datatype Piece = Plain(c: char) | Escaped(c: char)

  predicate ArePieces(ps: seq<Piece>) {
    forall i | 0 <= i < |ps| :: ps[i].Plain? ==> ps[i].c != '\\'
  }

  function Spelled(ps: seq<Piece>): string {
    if ps == [] then "" else (if ps[0].Plain? then [ps[0].c] else ['\\', ps[0].c]) + Spelled(ps[1..])
  }

  predicate Means(p: Piece, text: string) {
    match p
    case Plain(c) => text == [c]
    case Escaped(c) =>
      if c == 'n' then text == ['\n']
      else if c == 't' then text == ['\t']
      else if c == '\'' || c == '\\' then text == [c]
      else text == ['\\', c]
  }

  function Concat(texts: seq<string>): string {
    if texts == [] then "" else texts[0] + Concat(texts[1..])
  }

  /** The value of any text between quotes: it is a sequence of pieces, with perhaps a lone
      backslash at the end, and the value is what the pieces mean, one after the other, with
      that backslash. */
  lemma {:induction false} UnescapeReadsPieces(s: string) returns (ps: seq<Piece>, texts: seq<string>, last: string)
    ensures ArePieces(ps) && (last == "" || last == "\\") && s == Spelled(ps) + last
    ensures |texts| == |ps| && (forall i | 0 <= i < |ps| :: Means(ps[i], texts[i])) && Unescape(s) == Concat(texts) + last
    decreases |s|
  {
    hide Means, Unescape, Spelled, Concat, ArePieces;
    if s == "" || s == "\\" {
      ps, texts, last := [], [], s;
      NoPieces(s);
    } else {
      var n := if s[0] == '\\' then 2 else 1;
      var more, others;
      more, others, last := UnescapeReadsPieces(s[n..]);
      var p, text := if n == 2 then Escaped(s[1]) else Plain(s[0]), if n == 2 then UnescapePair(s[1]) else [s[0]];
      ps, texts := [p] + more, [text] + others;
      PieceMeans(p, text);
      OnePiece(s, n, p, text, more, others, last);
    }
  }

  lemma NoPieces(s: string)
    requires s == "" || s == "\\"
    ensures Unescape(s) == s && Spelled([]) == "" && Concat([]) == "" && ArePieces([])
  {
  }

  lemma OnePiece(s: string, n: nat, p: Piece, text: string, ps: seq<Piece>, texts: seq<string>, last: string)
    requires s != "" && s != "\\" && n == (if s[0] == '\\' then 2 else 1) && ArePieces(ps)
    requires p == (if n == 2 then Escaped(s[1]) else Plain(s[0])) && text == if n == 2 then UnescapePair(s[1]) else [s[0]]
    requires s[n..] == Spelled(ps) + last && Unescape(s[n..]) == Concat(texts) + last
    ensures s == Spelled([p] + ps) + last && Unescape(s) == Concat([text] + texts) + last && ArePieces([p] + ps)
  {
    hide UnescapePair, Unescape, Spelled, Concat, ArePieces;
    FirstPiece(p, text, ps, texts);
    UnescapeAt(s, 0);
    assert s[0..] == s == s[..n] + s[n..];
  }

  lemma FirstPiece(p: Piece, text: string, ps: seq<Piece>, texts: seq<string>)
    ensures Spelled([p] + ps) == (if p.Plain? then [p.c] else ['\\', p.c]) + Spelled(ps)
    ensures Concat([text] + texts) == text + Concat(texts)
    ensures ArePieces(ps) && (p.Plain? ==> p.c != '\\') ==> ArePieces([p] + ps)
  {
    assert ([p] + ps)[1..] == ps && ([text] + texts)[1..] == texts;
  }

  lemma PieceMeans(p: Piece, text: string)
    requires text == if p.Escaped? then UnescapePair(p.c) else [p.c]
    ensures Means(p, text)
  {
  }
}
