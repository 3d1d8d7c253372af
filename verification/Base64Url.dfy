/** Unpadded base64url text as used by the vault's tokens: the encoding of sections 3.2 and 5 of
    RFC 4648 with its padding stripped, and the tolerant decoder the source relies on. */
module Base64Url {
  import opened Prelude

  type byte = b: int | 0 <= b < 256

  type Sextet = v: int | 0 <= v < 64

  function Symbol(v: Sextet): char {
    if v < 26 then ('A' as int + v) as char
    else if v < 52 then ('a' as int + v - 26) as char
    else if v < 62 then ('0' as int + v - 52) as char
    else if v == 62 then '-'
    else '_'
  }

  /** The decoder also takes the standard alphabet's two symbols; other characters carry nothing. */
  function Value(c: char): Option<Sextet> {
    if 'A' <= c <= 'Z' then Some(c as int - 'A' as int)
    else if 'a' <= c <= 'z' then Some(c as int - 'a' as int + 26)
    else if '0' <= c <= '9' then Some(c as int - '0' as int + 52)
    else if c == '-' || c == '+' then Some(62)
    else if c == '_' || c == '/' then Some(63)
    else None
  }

  /** Text without padding: three bytes make four symbols, a rest of one or two makes two or three. */
  function EncodeBare(b: seq<byte>): string {
    if |b| == 0 then ""
    else if |b| == 1 then [Symbol(b[0] / 4), Symbol(b[0] % 4 * 16)]
    else if |b| == 2 then [Symbol(b[0] / 4), Symbol(b[0] % 4 * 16 + b[1] / 16), Symbol(b[1] % 16 * 4)]
    else
      [Symbol(b[0] / 4), Symbol(b[0] % 4 * 16 + b[1] / 16), Symbol(b[1] % 16 * 4 + b[2] / 64), Symbol(b[2] % 64)]
      + EncodeBare(b[3..])
  }

  function Pads(n: nat): string {
    seq(n, _ => '=')
  }

  /** The padded encoding. */
  function Encode(b: seq<byte>): string {
    EncodeBare(b) + Pads(if |b| % 3 == 0 then 0 else 3 - |b| % 3)
  }

  function StripPads(s: string): string {
    if s != "" && s[|s| - 1] == '=' then StripPads(s[..|s| - 1]) else s
  }

  /** Decoding from inside a group of four: `held` are the bits left over from `quad` symbols, and
      `pads` padding characters have been seen since the last symbol. Enough padding ends the text. */
  function DecodeFrom(s: string, quad: nat, held: Sextet, pads: nat): Option<seq<byte>>
    requires quad < 4 && (quad == 2 ==> held < 16) && (quad == 3 ==> held < 4)
  {
    if s == "" then (if quad == 0 then Some([]) else None)
    else if s[0] == '=' then
      if quad >= 2 && quad + pads + 1 >= 4 then Some([])
      else DecodeFrom(s[1..], quad, held, if quad >= 2 then pads + 1 else pads)
    else
      match Value(s[0])
      case None => DecodeFrom(s[1..], quad, held, pads)
      case Some(v) =>
        if quad == 0 then DecodeFrom(s[1..], 1, v, 0)
        else if quad == 1 then Prepend(held * 4 + v / 16, DecodeFrom(s[1..], 2, v % 16, 0))
        else if quad == 2 then Prepend(held * 16 + v / 4, DecodeFrom(s[1..], 3, v % 4, 0))
        else Prepend(held * 64 + v, DecodeFrom(s[1..], 0, 0, 0))
  }

  function Prepend(b: byte, rest: Option<seq<byte>>): Option<seq<byte>> {
    if rest.Some? then Some([b] + rest.value) else None
  }

  predicate Ascii(s: string) {
    forall c :: c in s ==> c < 128 as char
  }

  /** `_b64decode`: padding restored to a multiple of four, then the tolerant decoder. */
  function Decode(token: string): Option<seq<byte>> {
    if !Ascii(token) then None else DecodeFrom(token + Pads(-|token| % 4), 0, 0, 0)
  }

  // ----- Undoing -----

  lemma SymbolValue(v: Sextet)
    ensures Value(Symbol(v)) == Some(v) && Symbol(v) != '=' && Symbol(v) < 128 as char
  {
  }

  predicate Plain(s: string) {
    Ascii(s) && '=' !in s
  }

  lemma PlainConcat(s: string, t: string)
    requires Plain(s) && Plain(t)
    ensures Plain(s + t)
  {
  }

  lemma PlainSymbol(v: Sextet)
    ensures Plain([Symbol(v)])
  {
    SymbolValue(v);
  }

  lemma {:induction false} BareIsPlain(b: seq<byte>)
    ensures Plain(EncodeBare(b))
  {
    if 0 < |b| {
      PlainSymbol(b[0] / 4);
      if |b| == 1 {
        PlainSymbol(b[0] % 4 * 16);
        PlainConcat([Symbol(b[0] / 4)], [Symbol(b[0] % 4 * 16)]);
      } else {
        var v, w := Symbol(b[0] / 4), Symbol(b[0] % 4 * 16 + b[1] / 16);
        PlainSymbol(b[0] % 4 * 16 + b[1] / 16);
        PlainConcat([v], [w]);
        if |b| == 2 {
          PlainSymbol(b[1] % 16 * 4);
          PlainConcat([v, w], [Symbol(b[1] % 16 * 4)]);
        } else {
          var x, y := Symbol(b[1] % 16 * 4 + b[2] / 64), Symbol(b[2] % 64);
          PlainSymbol(b[1] % 16 * 4 + b[2] / 64);
          PlainSymbol(b[2] % 64);
          PlainConcat([x], [y]);
          PlainConcat([v, w], [x, y]);
          assert [v, w] + [x, y] == [v, w, x, y];
          BareIsPlain(b[3..]);
          PlainConcat([v, w, x, y], EncodeBare(b[3..]));
        }
      }
    }
  }

  lemma {:induction false} BareLength(b: seq<byte>)
    ensures |EncodeBare(b)| == |b| / 3 * 4 + (if |b| % 3 == 0 then 0 else |b| % 3 + 1)
  {
    if |b| >= 3 {
      BareLength(b[3..]);
    }
  }

  lemma {:induction false} StripUndoesPads(s: string, n: nat)
    requires '=' !in s
    ensures StripPads(s + Pads(n)) == s
  {
    var t := s + Pads(n);
    if n > 0 {
      assert t[..|t| - 1] == s + Pads(n - 1);
      StripUndoesPads(s, n - 1);
    } else {
      assert t == s;
    }
  }

  /** The token text: what stripping the padding of the encoding leaves. */
  lemma StripIsBare(b: seq<byte>)
    ensures StripPads(Encode(b)) == EncodeBare(b)
  {
    BareIsPlain(b);
    StripUndoesPads(EncodeBare(b), if |b| % 3 == 0 then 0 else 3 - |b| % 3);
  }

  lemma OneSymbol(v: Sextet, rest: string, quad: nat, held: Sextet)
    requires quad < 4 && (quad == 2 ==> held < 16) && (quad == 3 ==> held < 4)
    ensures DecodeFrom([Symbol(v)] + rest, quad, held, 0)
         == if quad == 0 then DecodeFrom(rest, 1, v, 0)
            else if quad == 1 then Prepend(held * 4 + v / 16, DecodeFrom(rest, 2, v % 16, 0))
            else if quad == 2 then Prepend(held * 16 + v / 4, DecodeFrom(rest, 3, v % 4, 0))
            else Prepend(held * 64 + v, DecodeFrom(rest, 0, 0, 0))
  {
    SymbolValue(v);
    var s := [Symbol(v)] + rest;
    assert s[1..] == rest;
  }

  lemma DecodePads(quad: nat, held: Sextet)
    requires quad in {0, 2, 3} && (quad == 2 ==> held < 16) && (quad == 3 ==> held < 4)
    ensures DecodeFrom(Pads(if quad == 0 then 0 else 4 - quad), quad, held, 0) == Some([])
  {
    if quad == 2 {
      assert Pads(2)[1..] == Pads(1);
    }
  }

  lemma FirstTwo(b: seq<byte>, v: Sextet, w: Sextet, rest: string)
    requires |b| >= 1 && v == b[0] / 4 && w / 16 == b[0] % 4
    ensures DecodeFrom([Symbol(v), Symbol(w)] + rest, 0, 0, 0) == Prepend(b[0], DecodeFrom(rest, 2, w % 16, 0))
  {
    assert [Symbol(v), Symbol(w)] + rest == [Symbol(v)] + ([Symbol(w)] + rest);
    OneSymbol(v, [Symbol(w)] + rest, 0, 0);
    OneSymbol(w, rest, 1, v);
  }

  lemma DecodeOne(b: seq<byte>)
    requires |b| == 1
    ensures DecodeFrom(Encode(b), 0, 0, 0) == Some(b)
  {
    var v, w := b[0] / 4, b[0] % 4 * 16;
    assert Encode(b) == [Symbol(v), Symbol(w)] + Pads(2);
    FirstTwo(b, v, w, Pads(2));
    DecodePads(2, 0);
    assert b == [b[0]] + [];
  }

  lemma DecodeTwo(b: seq<byte>)
    requires |b| == 2
    ensures DecodeFrom(Encode(b), 0, 0, 0) == Some(b)
  {
    var v, w, x := b[0] / 4, b[0] % 4 * 16 + b[1] / 16, b[1] % 16 * 4;
    assert Encode(b) == [Symbol(v), Symbol(w)] + ([Symbol(x)] + Pads(1));
    FirstTwo(b, v, w, [Symbol(x)] + Pads(1));
    OneSymbol(x, Pads(1), 2, w % 16);
    DecodePads(3, 0);
    assert b == [b[0]] + ([b[1]] + []);
  }

  lemma LastTwo(b: seq<byte>, held: Sextet, x: Sextet, y: Sextet, rest: string)
    requires |b| >= 3 && held < 16 && held == b[1] / 16 && x / 4 == b[1] % 16 && x % 4 * 64 + y == b[2]
    ensures DecodeFrom([Symbol(x), Symbol(y)] + rest, 2, held, 0) == Prepend(b[1], Prepend(b[2], DecodeFrom(rest, 0, 0, 0)))
  {
    OneSymbol(x, [Symbol(y)] + rest, 2, held);
    OneSymbol(y, rest, 3, x % 4);
    hide DecodeFrom, Symbol;
    assert [Symbol(x), Symbol(y)] + rest == [Symbol(x)] + ([Symbol(y)] + rest);
    assert held * 16 + x / 4 == b[1];
  }

  lemma DecodeGroup(b: seq<byte>, rest: string)
    requires |b| >= 3
    ensures DecodeFrom([Symbol(b[0] / 4), Symbol(b[0] % 4 * 16 + b[1] / 16), Symbol(b[1] % 16 * 4 + b[2] / 64), Symbol(b[2] % 64)] + rest, 0, 0, 0)
         == Prepend(b[0], Prepend(b[1], Prepend(b[2], DecodeFrom(rest, 0, 0, 0))))
  {
    var v, w, x, y := b[0] / 4, b[0] % 4 * 16 + b[1] / 16, b[1] % 16 * 4 + b[2] / 64, b[2] % 64;
    hide DecodeFrom, Symbol;
    var last := [Symbol(x), Symbol(y)] + rest;
    assert [Symbol(v), Symbol(w), Symbol(x), Symbol(y)] + rest == [Symbol(v), Symbol(w)] + last;
    FirstTwo(b, v, w, last);
    LastTwo(b, w % 16, x, y, rest);
  }

  lemma DecodeMore(b: seq<byte>)
    requires |b| >= 3 && DecodeFrom(Encode(b[3..]), 0, 0, 0) == Some(b[3..])
    ensures DecodeFrom(Encode(b), 0, 0, 0) == Some(b)
  {
    hide DecodeFrom, Symbol;
    var group := [Symbol(b[0] / 4), Symbol(b[0] % 4 * 16 + b[1] / 16), Symbol(b[1] % 16 * 4 + b[2] / 64), Symbol(b[2] % 64)];
    assert Encode(b) == group + Encode(b[3..]);
    DecodeGroup(b, Encode(b[3..]));
    assert b == [b[0]] + ([b[1]] + ([b[2]] + b[3..]));
  }

  lemma {:induction false} DecodeUndoesEncode(b: seq<byte>)
    ensures DecodeFrom(Encode(b), 0, 0, 0) == Some(b)
  {
    if |b| == 0 {
      assert Encode(b) == "";
    } else if |b| == 1 {
      DecodeOne(b);
    } else if |b| == 2 {
      DecodeTwo(b);
    } else {
      DecodeUndoesEncode(b[3..]);
      DecodeMore(b);
    }
  }

  /** The length of the unpadded text tells how much padding was stripped. */
  lemma PadsRestored(b: seq<byte>)
    ensures EncodeBare(b) + Pads(-|EncodeBare(b)| % 4) == Encode(b)
  {
    BareLength(b);
    PadCount(|b|, |EncodeBare(b)|);
    hide EncodeBare;
  }

  lemma PadCount(n: nat, length: int)
    requires length == n / 3 * 4 + (if n % 3 == 0 then 0 else n % 3 + 1)
    ensures -length % 4 == if n % 3 == 0 then 0 else 3 - n % 3
  {
  }

  /** Stripping the padding and restoring it from the length gives every byte string back. */
  lemma RoundTrip(b: seq<byte>)
    ensures Decode(StripPads(Encode(b))) == Some(b)
  {
    hide EncodeBare, Encode, DecodeFrom, StripPads, Pads;
    StripIsBare(b);
    BareIsPlain(b);
    PadsRestored(b);
    DecodeUndoesEncode(b);
  }

  // ----- The text itself -----

  const UPPER := "ABCDEFGHIJKLMNOPQRSTUVWXYZ"
  const LOWER := "abcdefghijklmnopqrstuvwxyz"
  const DIGITS := "0123456789"
  const ALPHABET := UPPER + LOWER + DIGITS + "-_"

  lemma InUpper(v: int)
    requires 0 <= v < 26
    ensures |UPPER| == 26 && UPPER[v] == ('A' as int + v) as char
  {
  }

  lemma InLower(v: int)
    requires 0 <= v < 26
    ensures |LOWER| == 26 && LOWER[v] == ('a' as int + v) as char
  {
  }

  lemma InDigits(v: int)
    requires 0 <= v < 10
    ensures |DIGITS| == 10 && DIGITS[v] == ('0' as int + v) as char
  {
  }

  /** Where the four stretches of the alphabet lie. */
  lemma Stretches(v: int)
    requires 0 <= v < 64
    ensures |ALPHABET| == 64
    ensures ALPHABET[v] == if v < 26 then ('A' as int + v) as char
                           else if v < 52 then ('a' as int + v - 26) as char
                           else if v < 62 then ('0' as int + v - 52) as char
                           else "-_"[v - 62]
  {
    InUpper(if v < 26 then v else 0);
    InLower(if 26 <= v < 52 then v - 26 else 0);
    InDigits(if 52 <= v < 62 then v - 52 else 0);
    Concatenated(UPPER, LOWER, DIGITS, "-_", v);
  }

  lemma Concatenated(a: string, b: string, c: string, d: string, v: int)
    requires 0 <= v < |a| + |b| + |c| + |d|
    ensures (a + b + c + d)[v] == if v < |a| then a[v]
                                  else if v < |a| + |b| then b[v - |a|]
                                  else if v < |a| + |b| + |c| then c[v - |a| - |b|]
                                  else d[v - |a| - |b| - |c|]
  {
  }

  /** The symbols are those of Table 2 in section 5 of RFC 4648, and the decoder also reads the two of
      the standard alphabet. */
  lemma SymbolsOfTheTable(v: Sextet)
    ensures |ALPHABET| == 64 && Symbol(v) == ALPHABET[v]
    ensures Value('+') == Value('-') && Value('/') == Value('_')
  {
    Stretches(v);
  }

  /** The number that symbols spell in base 64. */
  function Spelt(s: string): int {
    if s == "" then 0
    else Spelt(s[..|s| - 1]) * 64 + (match Value(s[|s| - 1]) case None => 0 case Some(v) => v)
  }

  /** Bytes read as a number. */
  function BigEndian(b: seq<byte>): int {
    if b == [] then 0 else BigEndian(b[..|b| - 1]) * 256 + b[|b| - 1] as int
  }

  lemma ThreeBytes(b: seq<byte>)
    requires 1 <= |b| <= 3
    ensures var x, y, z: int := b[0], if |b| > 1 then b[1] else 0, if |b| > 2 then b[2] else 0;
            BigEndian(b) == if |b| == 1 then x else if |b| == 2 then x * 256 + y else (x * 256 + y) * 256 + z
  {
    assert b[..1] == [b[0]] && BigEndian(b[..1]) == b[0] as int;
    if |b| > 1 {
      assert b[..2][..1] == b[..1];
      assert BigEndian(b[..2]) == BigEndian(b[..1]) * 256 + b[1] as int;
      assert b[..|b|] == b;
    }
  }

  lemma SpeltOne(s: string, v: Sextet)
    ensures Spelt(s + [Symbol(v)]) == Spelt(s) * 64 + v
  {
    SymbolValue(v);
    assert (s + [Symbol(v)])[..|s|] == s;
  }

  lemma SpeltFour(v: Sextet, w: Sextet, x: Sextet, y: Sextet)
    ensures Spelt([Symbol(v), Symbol(w)]) == v * 64 + w
    ensures Spelt([Symbol(v), Symbol(w), Symbol(x)]) == (v * 64 + w) * 64 + x
    ensures Spelt([Symbol(v), Symbol(w), Symbol(x), Symbol(y)]) == ((v * 64 + w) * 64 + x) * 64 + y
  {
    SpeltOne("", v);
    SpeltOne([Symbol(v)], w);
    SpeltOne([Symbol(v), Symbol(w)], x);
    SpeltOne([Symbol(v), Symbol(w), Symbol(x)], y);
    assert Spelt("") == 0;
    hide Spelt, Symbol;
    assert "" + [Symbol(v)] == [Symbol(v)];
    assert [Symbol(v)] + [Symbol(w)] == [Symbol(v), Symbol(w)];
    assert [Symbol(v), Symbol(w)] + [Symbol(x)] == [Symbol(v), Symbol(w), Symbol(x)];
    assert [Symbol(v), Symbol(w), Symbol(x)] + [Symbol(y)] == [Symbol(v), Symbol(w), Symbol(x), Symbol(y)];
  }

  /** The first group of every text spells the first bytes as a number, the most significant symbol first:
      four symbols three bytes, and two or three symbols one or two last bytes with zero bits appended.
      What follows is the text of the other bytes. */
  lemma GroupSpelt(b: seq<byte>)
    requires b != []
    ensures |b| >= 3 ==> |EncodeBare(b)| >= 4 && Spelt(EncodeBare(b)[..4]) == BigEndian(b[..3]) && EncodeBare(b)[4..] == EncodeBare(b[3..])
    ensures |b| == 2 ==> |EncodeBare(b)| == 3 && Spelt(EncodeBare(b)) == BigEndian(b) * 4
    ensures |b| == 1 ==> |EncodeBare(b)| == 2 && Spelt(EncodeBare(b)) == BigEndian(b) * 16
  {
    ThreeBytes(if |b| >= 3 then b[..3] else b);
    if |b| == 1 {
      SpeltFour(b[0] / 4, b[0] % 4 * 16, 0, 0);
    } else if |b| == 2 {
      SpeltFour(b[0] / 4, b[0] % 4 * 16 + b[1] / 16, b[1] % 16 * 4, 0);
    } else {
      var v, w, x, y := b[0] / 4, b[0] % 4 * 16 + b[1] / 16, b[1] % 16 * 4 + b[2] / 64, b[2] % 64;
      SpeltFour(v, w, x, y);
      var group := [Symbol(v), Symbol(w), Symbol(x), Symbol(y)];
      assert EncodeBare(b) == group + EncodeBare(b[3..]);
      hide EncodeBare, Spelt, Symbol, BigEndian;
      assert (group + EncodeBare(b[3..]))[..4] == group && (group + EncodeBare(b[3..]))[4..] == EncodeBare(b[3..]);
    }
  }

  /** Characters outside both alphabets carry nothing: the decoder reads past them anywhere. */
  lemma {:induction false} ForeignIsSkipped(a: string, c: char, b: string, quad: nat, held: Sextet, pads: nat)
    requires quad < 4 && (quad == 2 ==> held < 16) && (quad == 3 ==> held < 4)
    requires c != '=' && c !in ALPHABET && c != '+' && c != '/'
    ensures DecodeFrom(a + [c] + b, quad, held, pads) == DecodeFrom(a + b, quad, held, pads)
  {
    if a == "" {
      assert a + [c] + b == [c] + b && a + b == b;
      OnlyTheTable(c);
    } else {
      var rest := a[1..];
      assert (a + [c] + b)[1..] == rest + [c] + b && (a + b)[1..] == rest + b;
      if a[0] == '=' {
        ForeignIsSkipped(rest, c, b, quad, held, if quad >= 2 then pads + 1 else pads);
      } else {
        match Value(a[0])
        case None => ForeignIsSkipped(rest, c, b, quad, held, pads);
        case Some(v) =>
          if quad == 0 {
            ForeignIsSkipped(rest, c, b, 1, v, 0);
          } else if quad == 1 {
            ForeignIsSkipped(rest, c, b, 2, v % 16, 0);
          } else if quad == 2 {
            ForeignIsSkipped(rest, c, b, 3, v % 4, 0);
          } else {
            ForeignIsSkipped(rest, c, b, 0, 0, 0);
          }
      }
    }
  }

  lemma ValueInverts(c: char)
    ensures Value(c).Some? ==> c == Symbol(Value(c).value) || c == '+' || c == '/'
  {
  }

  lemma OnlyTheTable(c: char)
    requires c !in ALPHABET && c != '+' && c != '/'
    ensures Value(c) == None
  {
    ValueInverts(c);
    if Value(c).Some? {
      SymbolsOfTheTable(Value(c).value);
      hide Value, Symbol;
    }
  }

  /** One symbol too many cannot be part of any byte: such a text is no base64. */
  lemma {:induction false} LoneSymbolFails(s: string, quad: nat, held: Sextet, n: nat)
    requires quad < 4 && (quad == 2 ==> held < 16) && (quad == 3 ==> held < 4) && (quad + |s|) % 4 == 1
    requires forall c :: c in s ==> Value(c).Some? && c != '='
    ensures DecodeFrom(s + Pads(n), quad, held, 0) == None
    decreases |s|, n
  {
    if s != "" {
      assert s[0] in s && (s + Pads(n))[1..] == s[1..] + Pads(n);
      var v := Value(s[0]).value;
      if quad == 0 {
        LoneSymbolFails(s[1..], 1, v, n);
      } else if quad == 1 {
        LoneSymbolFails(s[1..], 2, v % 16, n);
      } else if quad == 2 {
        LoneSymbolFails(s[1..], 3, v % 4, n);
      } else {
        LoneSymbolFails(s[1..], 0, 0, n);
      }
    } else if n > 0 {
      assert s + Pads(n) == Pads(n) && Pads(n)[1..] == Pads(n - 1) && "" + Pads(n - 1) == Pads(n - 1);
      LoneSymbolFails("", quad, held, n - 1);
    }
  }

  /** The text of a token is rejected when it holds a character outside ASCII, or when it is made of symbols
      and leaves one over. */
  lemma RejectedTexts(s: string)
    ensures (exists c :: c in s && c >= 128 as char) ==> Decode(s) == None
    ensures (forall c :: c in s ==> Value(c).Some? && c != '=') && |s| % 4 == 1 ==> Decode(s) == None
  {
    if (forall c :: c in s ==> Value(c).Some? && c != '=') && |s| % 4 == 1 {
      LoneSymbolFails(s, 0, 0, -|s| % 4);
    }
  }
}
