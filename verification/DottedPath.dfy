/** The dotted-path resolver of backend/app/adapters/base_adapter.py: `data.items.0.price`. */
module DottedPath {
  import opened Prelude

  datatype Json =
    | Null
    | Bool(flag: bool)
    | Number(value: real)
    | Text(text: string)
    | Array(items: seq<Json>)
    | Object(fields: map<string, Json>)

  /** Why a segment could not be followed. */
  datatype PathError = NotFound(token: string) | BadIndex(token: string) | IntoScalar(token: string)

  // ----- Splitting -----

  /** `str.split(".")`: always at least one piece, some of which may be empty. */
  function Split(path: string): (pieces: seq<string>)
    ensures pieces != []
  {
    if path == "" then [""]
    else
      var rest := Split(path[1..]);
      if path[0] == '.' then [""] + rest else [[path[0]] + rest[0]] + rest[1..]
  }

  function NonEmpty(pieces: seq<string>): seq<string> {
    if pieces == [] then []
    else if pieces[0] == "" then NonEmpty(pieces[1..])
    else [pieces[0]] + NonEmpty(pieces[1..])
  }

  function Tokens(path: string): seq<string> {
    NonEmpty(Split(path))
  }

  // ----- Reading an index -----

  /** What `int` strips from ASCII text. */
  predicate IsSpace(c: char) {
    c == ' ' || 9 <= c as int <= 13
  }

  function StripLeft(s: string): string {
    if s != "" && IsSpace(s[0]) then StripLeft(s[1..]) else s
  }

  function StripRight(s: string): string {
    if s != "" && IsSpace(s[|s| - 1]) then StripRight(s[..|s| - 1]) else s
  }

  /** Decimal digits, with single underscores allowed between them. */
  function Digits(s: string, read: nat, afterDigit: bool): Option<nat> {
    if s == "" then (if afterDigit then Some(read) else None)
    else if '0' <= s[0] <= '9' then Digits(s[1..], read * 10 + (s[0] as int - '0' as int), true)
    else if s[0] == '_' && afterDigit then Digits(s[1..], read, false)
    else None
  }

  /** Python's `int(text)` on ASCII text. */
  function ParseInt(text: string): Option<int> {
    var s := StripRight(StripLeft(text));
    if s != "" && (s[0] == '-' || s[0] == '+') then
      match Digits(s[1..], 0, false)
      case None => None
      case Some(n) =>
        var i: int := n;
        Some(if s[0] == '-' then -i else i)
    else
      match Digits(s, 0, false)
      case None => None
      case Some(n) => Some(n)
  }

  /** Where a Python list of `size` items is indexed by `token`; negative numbers count from the end. */
  function Position(token: string, size: nat): (p: Option<nat>)
    ensures p.Some? ==> p.value < size
  {
    match ParseInt(token)
    case None => None
    case Some(i) => if 0 <= i < size then Some(i) else if i < 0 <= size + i then Some(size + i) else None
  }

  // ----- Resolving -----

  function Follow(doc: Json, token: string): Result<Json, PathError> {
    match doc
    case Object(fields) => if token in fields then Success(fields[token]) else Failure(NotFound(token))
    case Array(items) =>
      (match Position(token, |items|)
       case None => Failure(BadIndex(token))
       case Some(p) => Success(items[p]))
    case _ => Failure(IntoScalar(token))
  }

  function ResolveTokens(doc: Json, tokens: seq<string>): Result<Json, PathError> {
    if tokens == [] then Success(doc)
    else
      match Follow(doc, tokens[0])
      case Failure(e) => Failure(e)
      case Success(child) => ResolveTokens(child, tokens[1..])
  }

  method ResolvePath(document: Json, path: string) returns (r: Result<Json, PathError>)
    ensures r == ResolveTokens(document, Tokens(path))
  {
    var current := document;
    var tokens := Tokens(path);
    for i := 0 to |tokens|
      invariant ResolveTokens(document, tokens) == ResolveTokens(current, tokens[i..])
    {
      var token := tokens[i];
      match current {
        case Object(fields) =>
          if token !in fields {
            return Failure(NotFound(token));
          }
          current := fields[token];
        case Array(items) =>
          var position := Position(token, |items|);
          if position.None? {
            return Failure(BadIndex(token));
          }
          current := items[position.value];
        case _ =>
          return Failure(IntoScalar(token));
      }
    }
    return Success(current);
  }

  // ----- Splitting loses nothing -----

  function Join(pieces: seq<string>): string
    requires pieces != []
  {
    if |pieces| == 1 then pieces[0] else pieces[0] + "." + Join(pieces[1..])
  }

  /** The pieces of a path from its first character and the pieces of the rest. */
  function Extend(c: char, pieces: seq<string>): seq<string>
    requires pieces != []
  {
    if c == '.' then [""] + pieces else [[c] + pieces[0]] + pieces[1..]
  }

  lemma SplitFirst(c: char, rest: string)
    ensures Split([c] + rest) == Extend(c, Split(rest))
  {
    assert ([c] + rest)[1..] == rest;
  }

  lemma ExtendJoins(c: char, pieces: seq<string>)
    requires pieces != []
    ensures Join(Extend(c, pieces)) == [c] + Join(pieces)
  {
    var more := Extend(c, pieces);
    if c == '.' {
      assert more[1..] == pieces;
      assert "" + "." + Join(pieces) == [c] + Join(pieces);
    } else {
      assert more[1..] == pieces[1..];
      if |pieces| > 1 {
        assert [c] + (pieces[0] + "." + Join(pieces[1..])) == ([c] + pieces[0]) + "." + Join(pieces[1..]);
      }
    }
  }

  lemma ExtendHoldsNoDot(c: char, pieces: seq<string>)
    requires pieces != [] && forall piece :: piece in pieces ==> '.' !in piece
    ensures forall piece :: piece in Extend(c, pieces) ==> '.' !in piece
  {
    assert pieces[0] in pieces;
    forall piece | piece in Extend(c, pieces) ensures '.' !in piece {
      assert piece == "" || piece == [c] + pieces[0] || piece in pieces;
    }
  }

  /** Splitting cuts at every dot and nowhere else: joining the pieces gives the path back, and no
      piece holds a dot. */
  lemma {:induction false} SplitJoins(path: string)
    ensures Join(Split(path)) == path
    ensures forall piece :: piece in Split(path) ==> '.' !in piece
  {
    if path != "" {
      SplitJoins(path[1..]);
      assert path == [path[0]] + path[1..];
      SplitFirst(path[0], path[1..]);
      hide Split, Join, Extend;
      ExtendJoins(path[0], Split(path[1..]));
      ExtendHoldsNoDot(path[0], Split(path[1..]));
    }
  }

  lemma ExtendConcat(c: char, a: seq<string>, b: seq<string>)
    requires a != []
    ensures Extend(c, a + b) == Extend(c, a) + b
  {
    assert (a + b)[1..] == a[1..] + b;
  }

  lemma {:induction false} SplitAtDot(p: string, q: string)
    ensures Split(p + "." + q) == Split(p) + Split(q)
  {
    if p == "" {
      assert p + "." + q == ['.'] + q;
      SplitFirst('.', q);
    } else {
      var rest := p[1..];
      SplitAtDot(rest, q);
      assert p + "." + q == [p[0]] + (rest + "." + q);
      assert p == [p[0]] + rest;
      SplitFirst(p[0], rest + "." + q);
      SplitFirst(p[0], rest);
      ExtendConcat(p[0], Split(rest), Split(q));
    }
  }

  lemma {:induction false} NonEmptyConcat(a: seq<string>, b: seq<string>)
    ensures NonEmpty(a + b) == NonEmpty(a) + NonEmpty(b)
  {
    if a == [] {
      assert a + b == b;
    } else {
      NonEmptyConcat(a[1..], b);
      assert (a + b)[0] == a[0] && (a + b)[1..] == a[1..] + b;
      if a[0] != "" {
        assert [a[0]] + (NonEmpty(a[1..]) + NonEmpty(b)) == [a[0]] + NonEmpty(a[1..]) + NonEmpty(b);
      }
    }
  }

  // ----- Composition -----

  lemma {:induction false} ResolveConcat(doc: Json, a: seq<string>, b: seq<string>)
    ensures ResolveTokens(doc, a + b)
         == match ResolveTokens(doc, a)
            case Failure(e) => Failure(e)
            case Success(inner) => ResolveTokens(inner, b)
    decreases |a|
  {
    if a == [] {
      assert a + b == b;
    } else {
      assert (a + b)[1..] == a[1..] + b;
      if Follow(doc, a[0]).Success? {
        ResolveConcat(Follow(doc, a[0]).value, a[1..], b);
      }
    }
  }

  /** Resolving `p.q` is resolving `p` and then `q` in the result; a failure of either is the failure
      of the whole. */
  lemma PathsCompose(doc: Json, p: string, q: string)
    ensures ResolveTokens(doc, Tokens(p + "." + q))
         == match ResolveTokens(doc, Tokens(p))
            case Failure(e) => Failure(e)
            case Success(inner) => ResolveTokens(inner, Tokens(q))
  {
    SplitAtDot(p, q);
    NonEmptyConcat(Split(p), Split(q));
    ResolveConcat(doc, Tokens(p), Tokens(q));
  }

  /** Superfluous dots change nothing. */
  lemma EmptySegmentsIgnored(p: string, q: string)
    ensures Tokens(p + "." + ("." + q)) == Tokens(p + "." + q)
    ensures Tokens("." + p) == Tokens(p) == Tokens(p + ".")
  {
    SplitAtDot(p, "." + q);
    SplitAtDot("", q);
    SplitAtDot("", p);
    SplitAtDot(p, "");
    SplitAtDot(p, q);
    assert "" + "." + q == "." + q && "" + "." + p == "." + p && p + "." + "" == p + ".";
    NonEmptyConcat(Split(p), Split("." + q));
    NonEmptyConcat(Split(p), Split(q));
    NonEmptyConcat([""], Split(q));
    NonEmptyConcat([""], Split(p));
    NonEmptyConcat(Split(p), [""]);
    assert NonEmpty([""]) == [];
  }

  // ----- One segment -----

  /** A number in decimal, without leading zeros. */
  function Decimal(n: nat): (s: string)
    ensures s != ""
  {
    if n < 10 then [DigitChar(n)] else Decimal(n / 10) + [DigitChar(n % 10)]
  }

  function DigitChar(d: nat): (c: char)
    requires d < 10
    ensures '0' <= c <= '9' && c as int - '0' as int == d
  {
    ('0' as int + d) as char
  }

  predicate AllDigits(s: string) {
    forall i :: 0 <= i < |s| ==> '0' <= s[i] <= '9'
  }

  lemma {:induction false} DigitsAppend(s: string, d: nat, read: nat, afterDigit: bool)
    requires AllDigits(s) && d < 10
    ensures s != "" || afterDigit ==> Digits(s, read, afterDigit).Some?
    ensures s != "" || afterDigit ==> Digits(s + [DigitChar(d)], read, afterDigit) == Some(Digits(s, read, afterDigit).value * 10 + d)
    ensures s == "" ==> Digits(s + [DigitChar(d)], read, afterDigit) == Some(read * 10 + d)
  {
    var more := s + [DigitChar(d)];
    if s == "" {
      assert more[1..] == "";
    } else {
      assert more[1..] == s[1..] + [DigitChar(d)] && more[0] == s[0];
      DigitsAppend(s[1..], d, read * 10 + (s[0] as int - '0' as int), true);
    }
  }

  lemma {:induction false} DigitsOfDecimal(n: nat)
    ensures AllDigits(Decimal(n)) && Digits(Decimal(n), 0, false) == Some(n)
  {
    if n < 10 {
      DigitsAppend("", n, 0, false);
      assert "" + [DigitChar(n)] == Decimal(n);
    } else {
      DigitsOfDecimal(n / 10);
      DigitsAppend(Decimal(n / 10), n % 10, 0, false);
    }
  }

  lemma ParsesDecimal(n: nat)
    ensures ParseInt(Decimal(n)) == Some(n)
    ensures ParseInt("-" + Decimal(n)).Some? && ParseInt("-" + Decimal(n)).value + n == 0
  {
    DigitsOfDecimal(n);
    var s, t := Decimal(n), "-" + Decimal(n);
    assert '0' <= s[0] <= '9' && '0' <= s[|s| - 1] <= '9';
    assert StripLeft(s) == s && StripRight(s) == s;
    assert t[0] == '-' && t[|t| - 1] == s[|s| - 1] && t[1..] == s;
    assert StripLeft(t) == t && StripRight(t) == t;
    hide Decimal, Digits, StripLeft, StripRight;
  }

  predicate Letter(c: char) {
    'a' <= c <= 'z' || 'A' <= c <= 'Z'
  }

  lemma {:induction false} LettersAreNoDigits(s: string, read: nat, afterDigit: bool)
    requires exists c :: c in s && Letter(c)
    ensures Digits(s, read, afterDigit) == None
  {
    if !Letter(s[0]) {
      var c :| c in s && Letter(c);
      assert c in s[1..];
      if '0' <= s[0] <= '9' {
        LettersAreNoDigits(s[1..], read * 10 + (s[0] as int - '0' as int), true);
      } else if s[0] == '_' && afterDigit {
        LettersAreNoDigits(s[1..], read, false);
      }
    }
  }

  lemma {:induction false} StrippingKeepsLetters(s: string, c: char)
    requires c in s && Letter(c)
    ensures c in StripLeft(s) && c in StripRight(s)
    decreases |s|
  {
    if IsSpace(s[0]) {
      StrippingKeepsLetters(s[1..], c);
    }
    if IsSpace(s[|s| - 1]) {
      StrippingKeepsLetters(s[..|s| - 1], c);
    }
  }

  lemma LettersAreNoIndex(token: string, size: nat)
    requires exists c :: c in token && Letter(c)
    ensures Position(token, size) == None
  {
    var c :| c in token && Letter(c);
    StrippingKeepsLetters(token, c);
    StrippingKeepsLetters(StripLeft(token), c);
    var s := StripRight(StripLeft(token));
    LettersAreNoDigits(s, 0, false);
    if s[0] == '-' || s[0] == '+' {
      assert c in s[1..];
      LettersAreNoDigits(s[1..], 0, false);
    }
  }

  lemma {:induction false} DotlessIsOnePiece(token: string)
    requires '.' !in token
    ensures Split(token) == [token]
  {
    if token != "" {
      DotlessIsOnePiece(token[1..]);
      assert token == [token[0]] + token[1..];
    }
  }

  lemma OneToken(token: string)
    requires token != "" && '.' !in token
    ensures Tokens(token) == [token]
  {
    DotlessIsOnePiece(token);
    assert [token][1..] == [] && NonEmpty([]) == [];
    assert NonEmpty([token]) == [token] + NonEmpty([token][1..]);
  }

  /** A segment names a field of an object, which must be there. */
  lemma FieldSegment(fields: map<string, Json>, token: string)
    requires token != "" && '.' !in token
    ensures ResolveTokens(Object(fields), Tokens(token)) == if token in fields then Success(fields[token]) else Failure(NotFound(token))
  {
    OneToken(token);
    assert [token][1..] == [];
  }

  /** A number picks an item of a list, counted from the front, or from the back with a minus sign;
      numbers out of range and words are errors. */
  lemma IndexSegment(items: seq<Json>, n: nat, word: string)
    requires '.' !in word && exists c :: c in word && Letter(c)
    ensures ResolveTokens(Array(items), Tokens(Decimal(n))) == if n < |items| then Success(items[n]) else Failure(BadIndex(Decimal(n)))
    ensures var back := "-" + Decimal(n);
            n > 0 ==> ResolveTokens(Array(items), Tokens(back)) == if n <= |items| then Success(items[|items| - n]) else Failure(BadIndex(back))
    ensures ResolveTokens(Array(items), Tokens(word)) == Failure(BadIndex(word))
  {
    ParsesDecimal(n);
    DigitsOfDecimal(n);
    LettersAreNoIndex(word, |items|);
    var c :| c in word && Letter(c);
    OneToken(word);
    OneToken(Decimal(n));
    OneToken("-" + Decimal(n));
    hide Decimal, ParseInt, Tokens, AllDigits;
    OneStep(Array(items), word);
    OneStep(Array(items), Decimal(n));
    OneStep(Array(items), "-" + Decimal(n));
  }

  lemma OneStep(doc: Json, token: string)
    ensures ResolveTokens(doc, [token]) == Follow(doc, token)
  {
    assert [token][1..] == [];
  }

  /** Nothing can be named inside a number, a text, a flag or null. */
  lemma ScalarSegment(doc: Json, token: string)
    requires token != "" && '.' !in token && !doc.Object? && !doc.Array?
    ensures ResolveTokens(doc, Tokens(token)) == Failure(IntoScalar(token))
  {
    OneToken(token);
    OneStep(doc, token);
  }

  // ----- Locality -----

  /** What the path can see of a document: the fields and items it passes through, and the sizes of
      the lists on the way. Everything else is replaced. */
  function Visible(doc: Json, tokens: seq<string>): Json {
    if tokens == [] then doc
    else
      match doc
      case Object(fields) =>
        if tokens[0] in fields then Object(map[tokens[0] := Visible(fields[tokens[0]], tokens[1..])]) else Object(map[])
      case Array(items) =>
        (match Position(tokens[0], |items|)
         case None => Array(Blank(|items|))
         case Some(p) => Array(Blank(|items|)[p := Visible(items[p], tokens[1..])]))
      case _ => Null
  }

  function Blank(n: nat): (b: seq<Json>)
    ensures |b| == n
  {
    seq(n, _ => Null)
  }

  /** Resolving sees no more of a document than `Visible` keeps. */
  lemma {:induction false} ResolvesVisiblePart(doc: Json, tokens: seq<string>)
    ensures ResolveTokens(Visible(doc, tokens), tokens) == ResolveTokens(doc, tokens)
    decreases |tokens|
  {
    if tokens != [] && Follow(doc, tokens[0]).Success? {
      ResolvesVisiblePart(Follow(doc, tokens[0]).value, tokens[1..]);
    }
  }

  /** Two documents that agree along a path resolve it alike. */
  lemma AgreementSuffices(a: Json, b: Json, path: string)
    requires Visible(a, Tokens(path)) == Visible(b, Tokens(path))
    ensures ResolveTokens(a, Tokens(path)) == ResolveTokens(b, Tokens(path))
  {
    ResolvesVisiblePart(a, Tokens(path));
    ResolvesVisiblePart(b, Tokens(path));
  }
}
