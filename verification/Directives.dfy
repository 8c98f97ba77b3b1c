/** The words of a //go: directive: tools/commentcheck/directives.go. */
module Directives {
  import opened Common
  import opened Utf8

  /** unicode.IsSpace. */
  predicate IsSpace(c: char) {
    || '\t' <= c <= '\r' || c == ' ' || c == '\U{85}' || c == '\U{A0}' || c == '\U{1680}'
    || '\U{2000}' <= c <= '\U{200A}' || c == '\U{2028}' || c == '\U{2029}' || c == '\U{202F}'
    || c == '\U{205F}' || c == '\U{3000}'
  }

  function TrimLeft(s: string): string {
    if s != "" && IsSpace(s[0]) then TrimLeft(s[1..]) else s
  }

  function TrimRight(s: string): string {
    if s != "" && IsSpace(s[|s| - 1]) then TrimRight(s[..|s| - 1]) else s
  }

  /** strings.TrimSpace. */
  function TrimSpace(s: string): string { TrimRight(TrimLeft(s)) }

  /** Both ends of a non-empty string are no space. */
  predicate Tight(s: string) { s != "" && !IsSpace(s[0]) && !IsSpace(s[|s| - 1]) }

  lemma {:induction false} TrimShrinks(s: string)
    ensures |TrimLeft(s)| <= |s| && |TrimRight(s)| <= |s|
    ensures TrimLeft(s) != "" ==> !IsSpace(TrimLeft(s)[0])
    ensures TrimRight(s) != "" ==> !IsSpace(TrimRight(s)[|TrimRight(s)| - 1]) && TrimRight(s)[0] == s[0]
  {
    if s != "" {
      TrimShrinks(s[1..]);
      TrimShrinks(s[..|s| - 1]);
    }
  }

  lemma TrimSpaceShrinks(s: string)
    ensures |TrimSpace(s)| <= |s|
    ensures TrimSpace(s) == "" || Tight(TrimSpace(s))
  {
    TrimShrinks(s);
    TrimShrinks(TrimLeft(s));
  }

  /** strings.IndexFunc with unicode.IsSpace: the first space, or -1. */
  function IndexSpace(s: string): int {
    if s == "" then -1
    else if IsSpace(s[0]) then 0
    else if IndexSpace(s[1..]) < 0 then -1 else 1 + IndexSpace(s[1..])
  }

  lemma {:induction false} FirstSpace(s: string)
    ensures IndexSpace(s) < 0 ==> IndexSpace(s) == -1 && forall i :: 0 <= i < |s| ==> !IsSpace(s[i])
    ensures IndexSpace(s) >= 0 ==>
        IndexSpace(s) < |s| && IsSpace(s[IndexSpace(s)]) && forall i :: 0 <= i < IndexSpace(s) ==> !IsSpace(s[i])
  {
    if s != "" {
      FirstSpace(s[1..]);
      assert forall i :: 0 < i < |s| ==> s[i] == s[1..][i - 1];
    }
  }

  // ---- the closing quote -----------------------------------------------------

  /** The scan of closingQuote from index on. */
  function FindClose(q: string, index: nat): int
    requires index >= 1
    decreases |q| - index
  {
    if index >= |q| then -1
    else if q[index] == '\\' && q[0] == '"' then FindClose(q, index + 2)
    else if q[index] == q[0] then index
    else FindClose(q, index + 1)
  }

  /** How many backslashes stand right before position i, the opening quote aside. */
  function Backslashes(q: string, i: nat): nat
    requires i <= |q|
  {
    if i <= 1 || q[i - 1] != '\\' then 0 else 1 + Backslashes(q, i - 1)
  }

  /** Position i ends the quoted text: the same quote, not escaped in a double-quoted text. */
  predicate Closes(q: string, i: nat) {
    1 <= i < |q| && q[i] == q[0] && (q[0] == '"' ==> Backslashes(q, i) % 2 == 0)
  }

  /** r is the first closing position, or -1 without one. */
  predicate IsFirstClose(q: string, r: int) {
    && -1 <= r < |q|
    && (r >= 0 ==> Closes(q, r))
    && forall i :: 1 <= i < (if r >= 0 then r else |q|) ==> !Closes(q, i)
  }

  lemma {:induction false} FindCloseIsFirst(q: string, index: nat)
    requires 1 <= index && (q != "" ==> q[0] == '"' || q[0] == '`')
    requires index <= |q| && q != "" && q[0] == '"' ==> Backslashes(q, index) % 2 == 0
    requires forall i :: 1 <= i < index && i < |q| ==> !Closes(q, i)
    ensures IsFirstClose(q, FindClose(q, index))
    decreases |q| - index
  {
    if index < |q| {
      if q[index] == '\\' && q[0] == '"' {
        assert index + 1 < |q| ==> Backslashes(q, index + 1) == 1 + Backslashes(q, index);
        assert !Closes(q, index) && !Closes(q, index + 1);
        FindCloseIsFirst(q, index + 2);
      } else if q[index] != q[0] {
        FindCloseIsFirst(q, index + 1);
      }
    }
  }

  /** The first quote like the opening one that no odd run of backslashes escapes; between
      backquotes, plainly the first one. */
  method ClosingQuote(q: string) returns (r: int)
    requires q != "" && (q[0] == '"' || q[0] == '`')
    ensures IsFirstClose(q, r) && r == FindClose(q, 1)
  {
    FindCloseIsFirst(q, 1);
    var index := 1;
    while index < |q|
      invariant 1 <= index
      invariant FindClose(q, index) == FindClose(q, 1)
    {
      if q[index] == '\\' && q[0] == '"' {
        index := index + 1;
      } else if q[index] == q[0] {
        return index;
      }
      index := index + 1;
    }
    return -1;
  }

  // ---- unquoting -------------------------------------------------------------

  /** The character of a one-letter escape in double quotes. */
  function Escaped(c: char): Option<char> {
    if c == 'a' then Some('\U{7}') else if c == 'b' then Some('\U{8}') else if c == 'f' then Some('\U{C}')
    else if c == 'n' then Some('\n') else if c == 'r' then Some('\r') else if c == 't' then Some('\t')
    else if c == 'v' then Some('\U{B}') else if c == '\\' then Some('\\') else if c == '"' then Some('"')
    else None
  }

  function DigitValue(c: char): nat {
    if '0' <= c <= '9' then (c - '0') as nat
    else if 'a' <= c <= 'f' then 10 + (c - 'a') as nat
    else if 'A' <= c <= 'F' then 10 + (c - 'A') as nat
    else 16
  }

  /** The value of a numeral, or None when one of its characters is no digit of the base. */
  function Number(digits: string, base: nat): Option<nat>
    requires base == 8 || base == 16
  {
    if digits == "" then Some(0)
    else
      var front, digit := Number(digits[..|digits| - 1], base), DigitValue(digits[|digits| - 1]);
      if front.None? || digit >= base then None else Some(Times(base, front.value) + digit)
  }

  function Times(base: nat, n: nat): nat
    requires base == 8 || base == 16
  {
    if base == 8 then 8 * n else 16 * n
  }

  /** The number written in some digits of rest. */
  function NumberAt(rest: string, from: nat, digits: nat, base: nat): Option<nat>
    requires base == 8 || base == 16
  {
    if |rest| < from + digits then None else Number(rest[from..from + digits], base)
  }

  /** \x and octal escapes stand for one byte, \u and \U for one character. */
  function ByteAt(rest: string, from: nat, digits: nat, base: nat): Option<(Bytes, nat)>
    requires base == 8 || base == 16
  {
    match NumberAt(rest, from, digits, base)
    case None => None
    case Some(v) => if v < 256 then Some(([v], from + digits)) else None
  }

  function CharAt(rest: string, digits: nat): Option<(Bytes, nat)> {
    match NumberAt(rest, 2, digits, 16)
    case None => None
    case Some(v) => if v < 0x11_0000 && !(0xD800 <= v < 0xE000) then Some((EncodeChar(v as char), 2 + digits)) else None
  }

  /** The bytes that a backslash and what follows it stand for, and where they end. */
  function EscapeAt(rest: string): (r: Option<(Bytes, nat)>)
    requires |rest| >= 2
    ensures r.Some? ==> 2 <= r.value.1 <= |rest|
  {
    var one := Escaped(rest[1]);
    if one.Some? then Some((EncodeChar(one.value), 2))
    else if rest[1] == 'x' then ByteAt(rest, 2, 2, 16)
    else if rest[1] == 'u' then CharAt(rest, 4)
    else if rest[1] == 'U' then CharAt(rest, 8)
    else ByteAt(rest, 1, 3, 8)
  }

  /** What the rest of a double-quoted literal stands for; its closing quote must end it. */
  function UnquoteRest(rest: string): Option<Bytes> {
    if rest == "" || rest[0] == '\n' then None
    else if rest[0] == '"' then (if |rest| == 1 then Some([]) else None)
    else if rest[0] != '\\' then Behind(EncodeChar(rest[0]), UnquoteRest(rest[1..]))
    else if |rest| == 1 then None
    else
      match EscapeAt(rest)
      case None => None
      case Some((bytes, end)) => Behind(bytes, UnquoteRest(rest[end..]))
  }

  function Behind(front: Bytes, more: Option<Bytes>): Option<Bytes> {
    if more.Some? then Some(front + more.value) else None
  }

  function DropReturns(s: string): string {
    if s == "" then "" else (if s[0] == '\r' then "" else [s[0]]) + DropReturns(s[1..])
  }

  /** unquotePattern: a bare word stands for itself, a quoted one for its strconv.Unquote. */
  function UnquotePattern(word: string): Option<Bytes>
    requires word != ""
  {
    if word[0] == '"' then UnquoteRest(word[1..])
    else if word[0] == '`' then
      (if |word| >= 2 && word[|word| - 1] == '`' && '`' !in word[1..|word| - 1]
       then Some(Encode(DropReturns(word[1..|word| - 1]))) else None)
    else Some(Encode(word))
  }

  // ---- the words -------------------------------------------------------------

  /** Where the first word of a trimmed text ends. */
  function WordEnd(rest: string): (end: nat)
    requires Tight(rest)
    ensures 1 <= end <= |rest|
  {
    FirstSpace(rest);
    var end := if rest[0] == '"' || rest[0] == '`' then FindClose(rest, 1) + 1 else IndexSpace(rest);
    if rest[0] == '"' || rest[0] == '`' then FindCloseIsFirst(rest, 1); (if end <= 0 then |rest| else end)
    else if end <= 0 then |rest| else end
  }

  /** What directiveWords returns, None when a word does not unquote. */
  function Words(arguments: string): Option<seq<Bytes>>
    decreases |arguments|
  {
    TrimSpaceShrinks(arguments);
    var rest := TrimSpace(arguments);
    if rest == "" then Some([])
    else
      match UnquotePattern(rest[..WordEnd(rest)])
      case None => None
      case Some(word) =>
        match Words(rest[WordEnd(rest)..])
        case None => None
        case Some(words) => Some([word] + words)
  }

  function Before(words: seq<Bytes>, more: Option<seq<Bytes>>): Option<seq<Bytes>> {
    if more.Some? then Some(words + more.value) else None
  }

  method DirectiveWords(arguments: string) returns (patterns: seq<Bytes>, parsed: bool)
    ensures Words(arguments) == if parsed then Some(patterns) else None
    ensures !parsed ==> patterns == []
  {
    patterns := [];
    var rest := TrimSpace(arguments);
    TrimSpaceShrinks(arguments);
    TrimAgain(arguments);
    BeforeNothing(Words(rest));
    while rest != ""
      invariant rest == "" || Tight(rest)
      invariant Words(arguments) == Before(patterns, Words(rest))
      decreases |rest|
    {
      var end := IndexSpace(rest);
      if rest[0] == '"' || rest[0] == '`' {
        var quote := ClosingQuote(rest);
        end := quote + 1;
      }
      if end <= 0 { end := |rest|; }
      var pattern := UnquotePattern(rest[..end]);
      assert end == WordEnd(rest);
      OneWordOn(arguments, patterns, rest);
      if pattern.None? { return [], false; }
      patterns := patterns + [pattern.value];
      rest := TrimSpace(rest[end..]);
    }
    assert patterns + [] == patterns;
    return patterns, true;
  }

  lemma BeforeNothing(more: Option<seq<Bytes>>)
    ensures Before([], more) == more
  {
    if more.Some? { assert [] + more.value == more.value; }
  }

  /** One turn of the loop keeps its invariant. */
  lemma OneWordOn(arguments: string, patterns: seq<Bytes>, rest: string)
    requires Tight(rest) && Words(arguments) == Before(patterns, Words(rest))
    ensures var pattern, more := UnquotePattern(rest[..WordEnd(rest)]), TrimSpace(rest[WordEnd(rest)..]);
      && (pattern.None? ==> Words(arguments) == None)
      && (pattern.Some? ==> Words(arguments) == Before(patterns + [pattern.value], Words(more)))
      && (more == "" || Tight(more)) && |more| < |rest|
  {
    NextWord(rest);
    TrimSpaceShrinks(rest[WordEnd(rest)..]);
    var pattern := UnquotePattern(rest[..WordEnd(rest)]);
    if pattern.Some? { BeforeTwice(patterns, pattern.value, Words(TrimSpace(rest[WordEnd(rest)..]))); }
  }

  lemma BeforeTwice(words: seq<Bytes>, word: Bytes, more: Option<seq<Bytes>>)
    ensures Before(words, Before([word], more)) == Before(words + [word], more)
  {
    if more.Some? { assert words + ([word] + more.value) == words + [word] + more.value; }
  }

  /** The words of a trimmed text are its first word and those of the trimmed rest. */
  lemma NextWord(rest: string)
    requires Tight(rest)
    ensures var pattern := UnquotePattern(rest[..WordEnd(rest)]);
            Words(rest) == if pattern.None? then None
                           else Before([pattern.value], Words(TrimSpace(rest[WordEnd(rest)..])))
  {
    TrimOfTight(rest);
    TrimAgain(rest[WordEnd(rest)..]);
  }

  lemma TrimOfTight(s: string)
    requires Tight(s)
    ensures TrimSpace(s) == s
  {}

  /** The words only depend on the trimmed text. */
  lemma TrimAgain(s: string)
    ensures Words(TrimSpace(s)) == Words(s)
  {
    TrimSpaceShrinks(s);
    if TrimSpace(s) != "" { TrimOfTight(TrimSpace(s)); }
  }

  // ---- print and parse -------------------------------------------------------

  /** A character or a byte as it may be written between double quotes. */
  datatype Piece =
    | Plain(c: char)
    | Short(letter: char)
    | HexByte(digits: string)
    | OctalByte(digits: string)
    | ShortRune(digits: string)
    | LongRune(digits: string)

  /** A numeral of so many digits, below a limit. */
  predicate IsNumeral(digits: string, base: nat, count: nat, limit: nat)
    requires base == 8 || base == 16
  {
    |digits| == count && Number(digits, base).Some? && Number(digits, base).value < limit
  }

  /** It denotes a character, which the surrogates are not. */
  predicate IsRune(digits: string, count: nat) {
    IsNumeral(digits, 16, count, 0x11_0000) && !(0xD800 <= Number(digits, 16).value < 0xE000)
  }

  predicate LegalPiece(p: Piece) {
    match p
    case Plain(c) => c != '"' && c != '\\' && c != '\n'
    case Short(letter) => Escaped(letter).Some?
    case HexByte(digits) => IsNumeral(digits, 16, 2, 256)
    case OctalByte(digits) => IsNumeral(digits, 8, 3, 256)
    case ShortRune(digits) => IsRune(digits, 4)
    case LongRune(digits) => IsRune(digits, 8)
  }

  function ShowPiece(p: Piece): string {
    match p
    case Plain(c) => [c]
    case Short(letter) => ['\\', letter]
    case HexByte(digits) => ['\\', 'x'] + digits
    case OctalByte(digits) => ['\\'] + digits
    case ShortRune(digits) => ['\\', 'u'] + digits
    case LongRune(digits) => ['\\', 'U'] + digits
  }

  /** The bytes a legal piece stands for. */
  function Meaning(p: Piece): Bytes
    requires LegalPiece(p)
  {
    match p
    case Plain(c) => EncodeChar(c)
    case Short(letter) => EncodeChar(Escaped(letter).value)
    case HexByte(digits) => [Number(digits, 16).value]
    case OctalByte(digits) => [Number(digits, 8).value]
    case ShortRune(digits) => EncodeChar(Number(digits, 16).value as char)
    case LongRune(digits) => EncodeChar(Number(digits, 16).value as char)
  }

  function ShowPieces(pieces: seq<Piece>): string {
    if pieces == [] then "" else ShowPiece(pieces[0]) + ShowPieces(pieces[1..])
  }

  function MeaningOf(pieces: seq<Piece>): Bytes
    requires forall p :: p in pieces ==> LegalPiece(p)
  {
    if pieces == [] then [] else Meaning(pieces[0]) + MeaningOf(pieces[1..])
  }

  /** How a word is written: bare, in double quotes or in backquotes. */
  datatype Token = Bare(text: string) | Double(pieces: seq<Piece>) | Back(text: string)

  /** A bare word is not empty, has no spaces and starts with no quote; backquotes hold no
      backquote. */
  predicate Legal(t: Token) {
    match t
    case Bare(w) => w != "" && w[0] != '"' && w[0] != '`' && forall i :: 0 <= i < |w| ==> !IsSpace(w[i])
    case Double(pieces) => forall p :: p in pieces ==> LegalPiece(p)
    case Back(w) => '`' !in w
  }

  function Show(t: Token): string {
    match t
    case Bare(w) => w
    case Double(pieces) => "\"" + ShowPieces(pieces) + "\""
    case Back(w) => "`" + w + "`"
  }

  /** The word that is written; carriage returns between backquotes are dropped. */
  function Word(t: Token): Bytes
    requires Legal(t)
  {
    match t
    case Bare(w) => Encode(w)
    case Double(pieces) => MeaningOf(pieces)
    case Back(w) => Encode(DropReturns(w))
  }

  /** A token and the spaces before it. */
  datatype Item = Item(gap: string, token: Token)

  predicate AllSpace(s: string) { forall i :: 0 <= i < |s| ==> IsSpace(s[i]) }

  /** The tokens are legal, only spaces stand between them, and some do behind a bare word. */
  predicate Spaced(items: seq<Item>, last: string) {
    && AllSpace(last)
    && (forall i :: 0 <= i < |items| ==> AllSpace(items[i].gap) && Legal(items[i].token))
    && (forall i :: 0 < i < |items| && items[i - 1].token.Bare? ==> items[i].gap != "")
  }

  function Print(items: seq<Item>, last: string): string {
    if items == [] then last else items[0].gap + (Show(items[0].token) + Print(items[1..], last))
  }

  function WordsOf(items: seq<Item>): (words: seq<Bytes>)
    requires forall i :: 0 <= i < |items| ==> Legal(items[i].token)
    ensures |words| == |items|
  {
    seq(|items|, i requires 0 <= i < |items| => Word(items[i].token))
  }

  lemma ShowIsTight(t: Token)
    requires Legal(t)
    ensures Tight(Show(t))
  {}

  // What the tables hold.

  /** The characters that unicode.IsSpace accepts. */
  lemma SpacesAre(c: char)
    ensures IsSpace(c) <==>
              c as int in {0x9, 0xA, 0xB, 0xC, 0xD, 0x20, 0x85, 0xA0, 0x1680, 0x2000, 0x2001, 0x2002, 0x2003, 0x2004,
                           0x2005, 0x2006, 0x2007, 0x2008, 0x2009, 0x200A, 0x2028, 0x2029, 0x202F, 0x205F, 0x3000}
  {}

  /** The one-letter escapes. */
  lemma EscapesAre(c: char)
    ensures forall k :: 0 <= k < 9 && c == "abfnrtv\\\""[k] ==>
              Escaped(c).Some? && Escaped(c).value as int == [7, 8, 12, 10, 13, 9, 11, 92, 34][k]
    ensures c !in "abfnrtv\\\"" ==> Escaped(c).None?
  {}

  /** The digits, in either case. */
  lemma DigitsAre(c: char)
    ensures forall k :: 0 <= k < 10 && c == "0123456789"[k] ==> DigitValue(c) == k
    ensures forall k :: 0 <= k < 6 && (c == "abcdef"[k] || c == "ABCDEF"[k]) ==> DigitValue(c) == 10 + k
    ensures c !in "0123456789abcdefABCDEF" ==> DigitValue(c) >= 16
  {}

  lemma DropReturnsMeans(a: string, c: char, b: string)
    ensures DropReturns("") == "" && DropReturns([c]) == (if c == '\r' then "" else [c])
    ensures DropReturns(a + b) == DropReturns(a) + DropReturns(b)
  {
    assert [c][1..] == "";
    DropReturnsConcat(a, b);
  }

  lemma {:induction false} DropReturnsConcat(a: string, b: string)
    ensures DropReturns(a + b) == DropReturns(a) + DropReturns(b)
  {
    if a == "" {
      assert a + b == b;
    } else {
      assert (a + b)[1..] == a[1..] + b;
      DropReturnsConcat(a[1..], b);
    }
  }

  // A word read back from the way it was written.

  /** The digits behind a backslash and a marker. */
  lemma NumberReads(digits: string, base: nat, marker: string, tail: string)
    requires base == 8 || base == 16
    ensures NumberAt(marker + digits + tail, |marker|, |digits|, base) == Number(digits, base)
  {
    var rest := marker + digits + tail;
    assert rest[|marker|..|marker| + |digits|] == digits;
  }

  /** A numeral is what has digits of the base only. */
  lemma {:induction false} NumeralHasDigits(digits: string, base: nat)
    requires base == 8 || base == 16
    ensures Number(digits, base).Some? <==> forall i :: 0 <= i < |digits| ==> DigitValue(digits[i]) < base
  {
    if digits != "" {
      NumeralHasDigits(digits[..|digits| - 1], base);
      assert forall i :: 0 <= i < |digits| - 1 ==> digits[..|digits| - 1][i] == digits[i];
    }
  }

  lemma ByteEscapeReads(p: Piece, tail: string)
    requires (p.HexByte? || p.OctalByte?) && LegalPiece(p)
    ensures EscapeAt(ShowPiece(p) + tail) == Some((Meaning(p), |ShowPiece(p)|))
  {
    if p.HexByte? {
      NumberReads(p.digits, 16, ['\\', 'x'], tail);
    } else {
      NumberReads(p.digits, 8, ['\\'], tail);
      NumeralHasDigits(p.digits, 8);
      assert DigitValue(p.digits[0]) < 8;
    }
  }

  lemma RuneEscapeReads(p: Piece, tail: string)
    requires (p.ShortRune? || p.LongRune?) && LegalPiece(p)
    ensures EscapeAt(ShowPiece(p) + tail) == Some((Meaning(p), |ShowPiece(p)|))
  {
    NumberReads(p.digits, 16, ['\\', if p.ShortRune? then 'u' else 'U'], tail);
  }

  /** The escape is decoded to its meaning, and ends where the piece ends. */
  lemma EscapeReads(p: Piece, tail: string)
    requires LegalPiece(p) && !p.Plain?
    ensures |ShowPiece(p)| >= 2 && EscapeAt(ShowPiece(p) + tail) == Some((Meaning(p), |ShowPiece(p)|))
  {
    if p.HexByte? || p.OctalByte? {
      ByteEscapeReads(p, tail);
    } else if p.ShortRune? || p.LongRune? {
      RuneEscapeReads(p, tail);
    }
  }

  lemma PieceUnquotes(p: Piece, tail: string)
    requires LegalPiece(p)
    ensures UnquoteRest(ShowPiece(p) + tail) == Behind(Meaning(p), UnquoteRest(tail))
  {
    if !p.Plain? { EscapeReads(p, tail); }
    PieceEnds(ShowPiece(p), tail);
  }

  lemma PieceEnds(front: string, tail: string)
    ensures (front + tail)[|front|..] == tail && (front != "" ==> (front + tail)[0] == front[0])
  {}

  lemma PiecesSplit(pieces: seq<Piece>, tail: string)
    requires pieces != []
    ensures ShowPieces(pieces) + tail == ShowPiece(pieces[0]) + (ShowPieces(pieces[1..]) + tail)
  {}

  lemma {:induction false} PiecesUnquote(pieces: seq<Piece>)
    requires forall p :: p in pieces ==> LegalPiece(p)
    ensures UnquoteRest(ShowPieces(pieces) + "\"") == Some(MeaningOf(pieces))
  {
    if pieces != [] {
      PiecesSplit(pieces, "\"");
      PieceUnquotes(pieces[0], ShowPieces(pieces[1..]) + "\"");
      PiecesUnquote(pieces[1..]);
    }
  }

  /** A legal word unquotes to itself. */
  lemma UnquoteShow(t: Token)
    requires Legal(t)
    ensures UnquotePattern(Show(t)) == Some(Word(t))
  {
    match t
    case Bare(_) =>
    case Double(pieces) =>
      PiecesUnquote(pieces);
      assert Show(t)[1..] == ShowPieces(pieces) + "\"";
    case Back(w) =>
      assert Show(t)[1..|Show(t)| - 1] == w;
  }

  // The end of a word.

  /** The scan passes over what is neither a quote nor a backslash. */
  lemma {:induction false} CloseBehindPlain(q: string, from: nat, to: nat)
    requires 1 <= from <= to <= |q| && q[0] == '"' && forall i :: from <= i < to ==> q[i] != '"' && q[i] != '\\'
    ensures FindClose(q, from) == FindClose(q, to)
    decreases |q| - from
  {
    if from < to { CloseBehindPlain(q, from + 1, to); }
  }

  lemma NumeralsAreSafe(digits: string, base: nat)
    requires (base == 8 || base == 16) && Number(digits, base).Some?
    ensures forall i :: 0 <= i < |digits| ==> digits[i] != '"' && digits[i] != '\\'
  {
    NumeralHasDigits(digits, base);
    forall i | 0 <= i < |digits| ensures digits[i] != '"' && digits[i] != '\\' {
      assert DigitValue(digits[i]) < base;
    }
  }

  lemma MarkedIsSafe(marker: string, digits: string)
    requires 1 <= |marker| <= 2 && |marker + digits| >= 2
    requires forall i :: 0 <= i < |digits| ==> digits[i] != '"' && digits[i] != '\\'
    ensures forall i :: 2 <= i < |marker + digits| ==> (marker + digits)[i] != '"' && (marker + digits)[i] != '\\'
  {
    assert forall i :: 2 <= i < |marker + digits| ==> (marker + digits)[i] == digits[i - |marker|];
  }

  /** Behind its first two characters an escape holds no quote and no backslash. */
  lemma EscapesHoldDigits(p: Piece)
    requires LegalPiece(p) && !p.Plain?
    ensures ShowPiece(p)[0] == '\\' && |ShowPiece(p)| >= 2
    ensures forall i :: 2 <= i < |ShowPiece(p)| ==> ShowPiece(p)[i] != '"' && ShowPiece(p)[i] != '\\'
  {
    if !p.Short? {
      NumeralsAreSafe(p.digits, if p.OctalByte? then 8 else 16);
      MarkedIsSafe(ShowPiece(p)[..|ShowPiece(p)| - |p.digits|], p.digits);
      assert ShowPiece(p) == ShowPiece(p)[..|ShowPiece(p)| - |p.digits|] + p.digits;
    }
  }

  lemma CloseBehindPiece(q: string, index: nat, p: Piece)
    requires LegalPiece(p) && 1 <= index && q != "" && q[0] == '"'
    requires index + |ShowPiece(p)| <= |q| && q[index..index + |ShowPiece(p)|] == ShowPiece(p)
    ensures FindClose(q, index) == FindClose(q, index + |ShowPiece(p)|)
  {
    var end := index + |ShowPiece(p)|;
    assert forall i :: index <= i < end ==> q[i] == ShowPiece(p)[i - index];
    if p.Plain? {
      CloseBehindPlain(q, index, end);
    } else {
      EscapesHoldDigits(p);
      assert FindClose(q, index) == FindClose(q, index + 2);
      CloseBehindPlain(q, index + 2, end);
    }
  }

  lemma SliceSplits(q: string, index: nat, front: string, tail: string)
    requires index <= |q| && q[index..] == front + tail
    ensures index + |front| <= |q| && q[index..index + |front|] == front && q[index + |front|..] == tail
  {
    assert q[index..index + |front|] == q[index..][..|front|];
    assert q[index + |front|..] == q[index..][|front|..];
  }

  lemma ClosesHere(q: string, index: nat, tail: string)
    requires 1 <= index <= |q| && q[0] == '"' && q[index..] == tail && tail != "" && tail[0] == '"'
    ensures FindClose(q, index) == index
  {
    assert q[index] == q[index..][0];
  }

  lemma PiecesLength(pieces: seq<Piece>)
    requires pieces != []
    ensures |ShowPieces(pieces)| == |ShowPiece(pieces[0])| + |ShowPieces(pieces[1..])|
  {}

  lemma CloseBehindFirst(q: string, index: nat, pieces: seq<Piece>, tail: string)
    requires pieces != [] && LegalPiece(pieces[0])
    requires 1 <= index <= |q| && q[0] == '"' && q[index..] == ShowPieces(pieces) + tail
    ensures var end := index + |ShowPiece(pieces[0])|;
      && end <= |q| && q[end..] == ShowPieces(pieces[1..]) + tail && FindClose(q, index) == FindClose(q, end)
      && index + |ShowPieces(pieces)| == end + |ShowPieces(pieces[1..])|
  {
    PiecesSplit(pieces, tail);
    SliceSplits(q, index, ShowPiece(pieces[0]), ShowPieces(pieces[1..]) + tail);
    CloseBehindPiece(q, index, pieces[0]);
    PiecesLength(pieces);
  }

  /** The scan passes over the pieces and stops at the quote behind them. */
  lemma {:induction false} CloseBehindPieces(q: string, index: nat, pieces: seq<Piece>, tail: string)
    requires forall p :: p in pieces ==> LegalPiece(p)
    requires tail != "" && tail[0] == '"'
    requires 1 <= index <= |q| && q[0] == '"' && q[index..] == ShowPieces(pieces) + tail
    ensures FindClose(q, index) == index + |ShowPieces(pieces)|
    decreases |pieces|
  {
    if pieces == [] {
      assert "" + tail == tail;
      ClosesHere(q, index, tail);
    } else {
      CloseBehindFirst(q, index, pieces, tail);
      CloseBehindPieces(q, index + |ShowPiece(pieces[0])|, pieces[1..], tail);
    }
  }

  lemma CloseBehindBackquoted(w: string, tail: string)
    requires '`' !in w
    ensures FindClose("`" + w + "`" + tail, 1) == 1 + |w|
  {
    var q := "`" + w + "`" + tail;
    FindCloseIsFirst(q, 1);
    assert forall i :: 1 <= i <= |w| ==> q[i] == w[i - 1] && !Closes(q, i);
    assert Closes(q, 1 + |w|);
  }

  lemma QuotedWordEnd(rest: string, close: nat)
    requires Tight(rest) && (rest[0] == '"' || rest[0] == '`') && FindClose(rest, 1) == close
    ensures WordEnd(rest) == close + 1
  {}

  lemma BareWordEnd(w: string, tail: string)
    requires Legal(Bare(w)) && Tight(w + tail) && (tail == "" || IsSpace(tail[0]))
    ensures WordEnd(w + tail) == |w|
  {
    var rest := w + tail;
    FirstSpace(rest);
    assert forall i :: 0 <= i < |w| ==> rest[i] == w[i];
    if tail != "" { assert rest[|w|] == tail[0]; }
  }

  lemma DoubleText(pieces: seq<Piece>, tail: string)
    ensures Show(Double(pieces)) + tail == "\"" + (ShowPieces(pieces) + ("\"" + tail))
    ensures |Show(Double(pieces))| == 2 + |ShowPieces(pieces)|
  {}

  lemma DoubleWordEnd(pieces: seq<Piece>, tail: string)
    requires Legal(Double(pieces)) && Tight(Show(Double(pieces)) + tail)
    ensures WordEnd(Show(Double(pieces)) + tail) == |Show(Double(pieces))|
  {
    var rest := Show(Double(pieces)) + tail;
    DoubleText(pieces, tail);
    PieceEnds("\"", ShowPieces(pieces) + ("\"" + tail));
    CloseBehindPieces(rest, 1, pieces, "\"" + tail);
    QuotedWordEnd(rest, 1 + |ShowPieces(pieces)|);
  }

  lemma BackWordEnd(w: string, tail: string)
    requires Legal(Back(w)) && Tight(Show(Back(w)) + tail)
    ensures WordEnd(Show(Back(w)) + tail) == |Show(Back(w))|
  {
    var rest := Show(Back(w)) + tail;
    assert rest == "`" + w + "`" + tail;
    CloseBehindBackquoted(w, tail);
    QuotedWordEnd(rest, 1 + |w|);
  }

  lemma WordEndOfShow(t: Token, tail: string)
    requires Legal(t) && Tight(Show(t) + tail) && (t.Bare? ==> tail == "" || IsSpace(tail[0]))
    ensures WordEnd(Show(t) + tail) == |Show(t)|
  {
    match t
    case Bare(w) => BareWordEnd(w, tail);
    case Double(pieces) => DoubleWordEnd(pieces, tail);
    case Back(w) => BackWordEnd(w, tail);
  }

  // The spaces around the words.

  lemma {:induction false} TrimLeftBehind(gap: string, s: string)
    requires AllSpace(gap)
    ensures TrimLeft(gap + s) == TrimLeft(s)
  {
    if gap == "" {
      assert gap + s == s;
    } else {
      assert (gap + s)[0] == gap[0] && (gap + s)[1..] == gap[1..] + s;
      TrimLeftBehind(gap[1..], s);
    }
  }

  lemma LeadingSpaces(gap: string, s: string)
    requires AllSpace(gap)
    ensures Words(gap + s) == Words(s)
  {
    TrimLeftBehind(gap, s);
    TrimAgain(gap + s);
    TrimAgain(s);
  }

  lemma {:induction false} TrimRightBehind(front: string, s: string)
    requires front != "" && !IsSpace(front[|front| - 1])
    ensures TrimRight(front + s) == front + TrimRight(s)
  {
    if s == "" {
      assert front + s == front;
    } else {
      var n := |front + s|;
      assert (front + s)[n - 1] == s[|s| - 1] && (front + s)[..n - 1] == front + s[..|s| - 1];
      TrimRightBehind(front, s[..|s| - 1]);
    }
  }

  lemma {:induction false} TrimRightDrops(s: string) returns (spaces: string)
    ensures AllSpace(spaces) && s == TrimRight(s) + spaces
  {
    if s != "" && IsSpace(s[|s| - 1]) {
      var more := TrimRightDrops(s[..|s| - 1]);
      spaces := more + [s[|s| - 1]];
    } else {
      spaces := "";
    }
  }

  lemma {:induction false} TrimLeftDrops(s: string) returns (spaces: string)
    ensures AllSpace(spaces) && s == spaces + TrimLeft(s)
  {
    if s != "" && IsSpace(s[0]) {
      var more := TrimLeftDrops(s[1..]);
      spaces := [s[0]] + more;
    } else {
      spaces := "";
    }
  }

  lemma {:induction false} TrimRightAgain(s: string, spaces: string)
    requires AllSpace(spaces)
    ensures TrimRight(s + spaces) == TrimRight(s)
  {
    if spaces == "" {
      assert s + spaces == s;
    } else {
      var n := |s + spaces|;
      assert (s + spaces)[n - 1] == spaces[|spaces| - 1] && (s + spaces)[..n - 1] == s + spaces[..|spaces| - 1];
      TrimRightAgain(s, spaces[..|spaces| - 1]);
    }
  }

  lemma {:induction false} TrimLeftOf(s: string, spaces: string)
    requires AllSpace(spaces)
    ensures TrimLeft(s + spaces) == TrimLeft(s) + spaces || (TrimLeft(s) == "" && AllSpace(TrimLeft(s + spaces)))
  {
    if s == "" {
      assert s + spaces == spaces;
      var dropped := TrimLeftDrops(spaces);
      assert forall i :: 0 <= i < |TrimLeft(spaces)| ==> TrimLeft(spaces)[i] == spaces[|dropped| + i];
    } else if IsSpace(s[0]) {
      assert (s + spaces)[1..] == s[1..] + spaces;
      TrimLeftOf(s[1..], spaces);
    }
  }

  lemma TrailingSpaces(s: string, spaces: string)
    requires AllSpace(spaces)
    ensures TrimSpace(s + spaces) == TrimSpace(s) && Words(s + spaces) == Words(s)
  {
    TrimLeftOf(s, spaces);
    if TrimLeft(s + spaces) == TrimLeft(s) + spaces {
      TrimRightAgain(TrimLeft(s), spaces);
    } else {
      var rest := TrimLeft(s + spaces);
      assert "" + rest == rest;
      TrimRightAgain("", rest);
    }
    TrimAgain(s + spaces);
    TrimAgain(s);
  }

  // ---- print, then parse -----------------------------------------------------

  /** The first word of a text, whatever spaces follow it. */
  lemma FirstWordParses(t: Token, more: string)
    requires Legal(t) && (t.Bare? ==> more == "" || IsSpace(more[0]))
    ensures Words(Show(t) + more) == Before([Word(t)], Words(more))
  {
    var tail := TrimRight(more);
    var spaces := TrimRightDrops(more);
    TightFront(t, more);
    ConcatAssociates(Show(t), tail, spaces);
    TrailingSpaces(Show(t) + tail, spaces);
    TrailingSpaces(tail, spaces);
    TightWordParses(t, tail);
  }

  lemma TightFront(t: Token, more: string)
    requires Legal(t)
    ensures Tight(Show(t) + TrimRight(more)) && (TrimRight(more) != "" ==> TrimRight(more)[0] == more[0])
  {
    var shown, tail := Show(t), TrimRight(more);
    ShowIsTight(t);
    TrimShrinks(more);
    if tail == "" {
      assert shown + tail == shown;
    } else {
      assert (shown + tail)[0] == shown[0] && (shown + tail)[|shown + tail| - 1] == tail[|tail| - 1];
    }
  }

  lemma ConcatAssociates(a: string, b: string, c: string)
    ensures a + (b + c) == (a + b) + c
  {}

  lemma TightWordParses(t: Token, tail: string)
    requires Legal(t) && Tight(Show(t) + tail) && (t.Bare? ==> tail == "" || IsSpace(tail[0]))
    ensures Words(Show(t) + tail) == Before([Word(t)], Words(tail))
  {
    var rest := Show(t) + tail;
    TrimOfTight(rest);
    WordEndOfShow(t, tail);
    PieceEnds(Show(t), tail);
    assert rest[..|Show(t)|] == Show(t);
    UnquoteShow(t);
  }

  lemma SpacesHaveNoWords(s: string)
    requires AllSpace(s)
    ensures Words(s) == Some([])
  {
    TrimLeftBehind(s, "");
    assert s + "" == s;
  }

  lemma RestIsSpaced(items: seq<Item>, last: string)
    requires Spaced(items, last) && items != []
    ensures Spaced(items[1..], last)
  {
    var rest := items[1..];
    assert forall i :: 0 <= i < |rest| ==> rest[i] == items[i + 1];
  }

  lemma BareThenSpace(items: seq<Item>, last: string)
    requires Spaced(items, last) && items != [] && items[0].token.Bare?
    ensures Print(items[1..], last) == "" || IsSpace(Print(items[1..], last)[0])
  {
    if |items| > 1 {
      assert items[1..][0] == items[1] && items[1].gap != "" && IsSpace(items[1].gap[0]);
      assert Print(items[1..], last)[0] == items[1].gap[0];
    }
  }

  lemma WordsOfSplit(items: seq<Item>)
    requires items != [] && forall i :: 0 <= i < |items| ==> Legal(items[i].token)
    ensures WordsOf(items) == [Word(items[0].token)] + WordsOf(items[1..])
  {
    assert forall i :: 0 <= i < |items| - 1 ==> items[1..][i] == items[i + 1];
  }

  /** directiveWords undoes the printer, for every list of words, every legal way to write each
      of them, and any spaces before, between and behind them. */
  lemma {:induction false} PrintThenParse(items: seq<Item>, last: string)
    requires Spaced(items, last)
    ensures Words(Print(items, last)) == Some(WordsOf(items))
  {
    if items == [] {
      SpacesHaveNoWords(last);
    } else {
      var more := Print(items[1..], last);
      RestIsSpaced(items, last);
      WordsOfSplit(items);
      if items[0].token.Bare? { BareThenSpace(items, last); }
      PrintThenParse(items[1..], last);
      LeadingSpaces(items[0].gap, Show(items[0].token) + more);
      FirstWordParses(items[0].token, more);
    }
  }

  // ---- parse, then print -----------------------------------------------------

  /** What an escape that decodes looks like. */
  lemma EscapeHasPiece(rest: string) returns (p: Piece)
    requires |rest| >= 2 && rest[0] == '\\' && EscapeAt(rest).Some?
    ensures LegalPiece(p) && Meaning(p) == EscapeAt(rest).value.0
    ensures EscapeAt(rest).value.1 <= |rest| && ShowPiece(p) == rest[..EscapeAt(rest).value.1]
  {
    var end := EscapeAt(rest).value.1;
    if Escaped(rest[1]).Some? {
      p := Short(rest[1]);
    } else if rest[1] == 'x' {
      p := HexByte(rest[2..4]);
    } else if rest[1] == 'u' {
      p := ShortRune(rest[2..6]);
    } else if rest[1] == 'U' {
      p := LongRune(rest[2..10]);
    } else {
      p := OctalByte(rest[1..4]);
    }
    assert rest[..end] == (if p.OctalByte? then ['\\'] + rest[1..end] else ['\\', rest[1]] + rest[2..end]);
  }

  lemma FirstPieceOf(rest: string) returns (p: Piece, end: nat)
    requires UnquoteRest(rest).Some? && rest[0] != '"'
    ensures LegalPiece(p) && 1 <= end <= |rest| && ShowPiece(p) == rest[..end]
    ensures UnquoteRest(rest[end..]).Some?
    ensures UnquoteRest(rest).value == Meaning(p) + UnquoteRest(rest[end..]).value
  {
    if rest[0] == '\\' {
      p := EscapeHasPiece(rest);
      end := EscapeAt(rest).value.1;
    } else {
      p, end := Plain(rest[0]), 1;
    }
  }

  lemma {:induction false} LiteralHasPieces(rest: string) returns (pieces: seq<Piece>)
    requires UnquoteRest(rest).Some?
    ensures forall p :: p in pieces ==> LegalPiece(p)
    ensures rest == ShowPieces(pieces) + "\"" && UnquoteRest(rest).value == MeaningOf(pieces)
    decreases |rest|
  {
    if rest[0] == '"' {
      pieces := [];
      assert rest == "" + "\"";
    } else {
      var p, end := FirstPieceOf(rest);
      var more := LiteralHasPieces(rest[end..]);
      pieces := [p] + more;
      PieceBefore(p, more);
      assert rest == rest[..end] + rest[end..];
    }
  }

  lemma PieceBefore(p: Piece, more: seq<Piece>)
    requires LegalPiece(p) && forall q :: q in more ==> LegalPiece(q)
    ensures forall q :: q in [p] + more ==> LegalPiece(q)
    ensures ShowPieces([p] + more) + "\"" == ShowPiece(p) + (ShowPieces(more) + "\"")
    ensures MeaningOf([p] + more) == Meaning(p) + MeaningOf(more)
  {
    assert ([p] + more)[1..] == more;
  }

  lemma QuotedText(word: string, inner: string)
    requires word != "" && word[0] == '"' && word[1..] == inner + "\""
    ensures word == "\"" + inner + "\""
  {
    assert word == [word[0]] + word[1..];
  }

  lemma BackText(word: string, inner: string)
    requires word != "" && word[0] == '`' && word[1..] == inner + "`"
    ensures word == "`" + inner + "`"
  {
    assert word == [word[0]] + word[1..];
  }

  /** What a word that unquotes looks like. */
  lemma WordHasToken(word: string) returns (t: Token)
    requires word != "" && UnquotePattern(word).Some?
    requires word[0] == '"' || word[0] == '`' || forall i :: 0 <= i < |word| ==> !IsSpace(word[i])
    ensures Legal(t) && Show(t) == word && Word(t) == UnquotePattern(word).value
    ensures t.Bare? <==> word[0] != '"' && word[0] != '`'
  {
    if word[0] == '"' {
      var pieces := LiteralHasPieces(word[1..]);
      t := Double(pieces);
      QuotedText(word, ShowPieces(pieces));
    } else if word[0] == '`' {
      t := Back(word[1..|word| - 1]);
      assert word[1..] == word[1..|word| - 1] + "`";
      BackText(word, word[1..|word| - 1]);
    } else {
      t := Bare(word);
    }
  }

  lemma TrimSplits(s: string) returns (lead: string, trail: string)
    ensures AllSpace(lead) && AllSpace(trail) && s == lead + (TrimSpace(s) + trail)
  {
    lead := TrimLeftDrops(s);
    trail := TrimRightDrops(TrimLeft(s));
  }

  lemma {:induction false} PrintPush(items: seq<Item>, last: string, spaces: string)
    ensures Print(items, last + spaces) == Print(items, last) + spaces
  {
    if items != [] {
      PrintPush(items[1..], last, spaces);
      var gap, shown, more := items[0].gap, Show(items[0].token), Print(items[1..], last);
      assert gap + (shown + (more + spaces)) == (gap + (shown + more)) + spaces;
    }
  }

  /** A bare word ends at a space. */
  lemma BareEndsAtSpace(rest: string)
    requires Tight(rest) && rest[0] != '"' && rest[0] != '`'
    ensures forall i :: 0 <= i < WordEnd(rest) ==> !IsSpace(rest[i])
    ensures WordEnd(rest) < |rest| ==> IsSpace(rest[WordEnd(rest)])
  {
    FirstSpace(rest);
  }

  /** What starts with a space starts with a gap. */
  lemma GapComesFirst(items: seq<Item>, last: string)
    requires Spaced(items, last) && items != [] && Print(items, last) != "" && IsSpace(Print(items, last)[0])
    ensures items[0].gap != ""
  {
    ShowIsTight(items[0].token);
    var rest := Show(items[0].token) + Print(items[1..], last);
    assert !IsSpace(rest[0]);
    assert items[0].gap == "" ==> Print(items, last) == rest;
  }

  lemma WordsStep(s: string)
    requires Words(s).Some? && TrimSpace(s) != ""
    ensures Tight(TrimSpace(s))
    ensures var rest := TrimSpace(s);
      && UnquotePattern(rest[..WordEnd(rest)]).Some? && Words(rest[WordEnd(rest)..]).Some?
      && Words(s).value == [UnquotePattern(rest[..WordEnd(rest)]).value] + Words(rest[WordEnd(rest)..]).value
  {
    TrimSpaceShrinks(s);
  }

  /** The first word of a text that is accepted: s is lead, the word, tail and trail. */
  lemma FirstItem(s: string) returns (lead: string, t: Token, tail: string, trail: string)
    requires Words(s).Some? && TrimSpace(s) != ""
    ensures AllSpace(lead) && AllSpace(trail) && Legal(t) && (t.Bare? ==> tail == "" || IsSpace(tail[0]))
    ensures s == lead + ((Show(t) + tail) + trail) && Show(t) != ""
    ensures Words(tail).Some? && Words(s).value == [Word(t)] + Words(tail).value
  {
    lead, trail := TrimSplits(s);
    WordsStep(s);
    t, tail := TokenOfRest(TrimSpace(s));
  }

  lemma TokenOfRest(rest: string) returns (t: Token, tail: string)
    requires Tight(rest) && UnquotePattern(rest[..WordEnd(rest)]).Some?
    ensures tail == rest[WordEnd(rest)..] && rest == Show(t) + tail && Show(t) != ""
    ensures Legal(t) && Word(t) == UnquotePattern(rest[..WordEnd(rest)]).value
    ensures t.Bare? ==> tail == "" || IsSpace(tail[0])
  {
    var end := WordEnd(rest);
    var word := rest[..end];
    tail := rest[end..];
    assert rest == word + tail && word[0] == rest[0];
    if rest[0] != '"' && rest[0] != '`' {
      BareEndsAtSpace(rest);
      assert forall i :: 0 <= i < |word| ==> word[i] == rest[i];
      if tail != "" { assert tail[0] == rest[end]; }
    }
    t := WordHasToken(word);
  }

  /** Every text that directiveWords accepts is a printing of the words it returns. */
  lemma {:induction false} ParsedIsPrinted(s: string) returns (items: seq<Item>, last: string)
    requires Words(s).Some?
    ensures Spaced(items, last) && s == Print(items, last) && Words(s).value == WordsOf(items)
    decreases |s|
  {
    if TrimSpace(s) == "" {
      var lead, trail := TrimSplits(s);
      items, last := [], s;
      assert "" + trail == trail;
    } else {
      var lead, t, tail, trail := FirstItem(s);
      var more, lastOfMore := ParsedIsPrinted(tail);
      if t.Bare? && more != [] {
        PrintIsNotEmpty(more, lastOfMore);
        GapComesFirst(more, lastOfMore);
      }
      items, last := ItemBefore(lead, t, more, lastOfMore, trail);
    }
  }

  lemma PrintIsNotEmpty(items: seq<Item>, last: string)
    requires Spaced(items, last) && items != []
    ensures Print(items, last) != ""
  {
    ShowIsTight(items[0].token);
  }

  /** A token before some items, and more spaces behind them. */
  lemma ItemBefore(lead: string, t: Token, more: seq<Item>, last: string, trail: string)
    returns (items: seq<Item>, last': string)
    requires AllSpace(lead) && AllSpace(trail) && Legal(t) && Spaced(more, last)
    requires t.Bare? && more != [] ==> more[0].gap != ""
    ensures Spaced(items, last') && WordsOf(items) == [Word(t)] + WordsOf(more)
    ensures Print(items, last') == lead + ((Show(t) + Print(more, last)) + trail)
  {
    items, last' := [Item(lead, t)] + more, last + trail;
    assert items[1..] == more;
    PrintPush(more, last, trail);
    ConcatAssociates(Show(t), Print(more, last), trail);
    assert Print(items, last') == lead + (Show(t) + Print(more, last'));
    SpacedBefore(lead, t, more, last, trail);
    WordsOfSplit(items);
  }

  lemma SpacedBefore(lead: string, t: Token, more: seq<Item>, last: string, trail: string)
    requires AllSpace(lead) && AllSpace(trail) && Legal(t) && Spaced(more, last)
    requires t.Bare? && more != [] ==> more[0].gap != ""
    ensures Spaced([Item(lead, t)] + more, last + trail)
  {
    var items := [Item(lead, t)] + more;
    assert forall i :: 0 < i < |items| ==> items[i] == more[i - 1];
    SpacesConcat(last, trail);
  }

  lemma SpacesConcat(a: string, b: string)
    requires AllSpace(a) && AllSpace(b)
    ensures AllSpace(a + b)
  {}

  /** directiveWords accepts a text, with certain words, if and only if the text is a printing of
      those words: only spaces around and between legal words, and some behind each bare one. */
  lemma WordsMean(s: string, words: seq<Bytes>)
    ensures Words(s) == Some(words) <==>
              exists items, last :: Spaced(items, last) && s == Print(items, last) && words == WordsOf(items)
  {
    if Words(s) == Some(words) {
      var items, last := ParsedIsPrinted(s);
    }
    if items, last :| Spaced(items, last) && s == Print(items, last) && words == WordsOf(items) {
      PrintThenParse(items, last);
    }
  }

  // ---- every list of words ---------------------------------------------------

  function NumeralDigit(n: nat): char
    requires n < 16
  {
    if n < 10 then '0' + n as char else 'a' + (n - 10) as char
  }

  /** A word written byte by byte. */
  function InBytes(word: Bytes): Token {
    Double(seq(|word|, i requires 0 <= i < |word| => HexByte([NumeralDigit(word[i] / 16), NumeralDigit(word[i] % 16)])))
  }

  lemma ByteReads(b: Byte)
    ensures Number([NumeralDigit(b / 16), NumeralDigit(b % 16)], 16) == Some(b)
  {
    var digits := [NumeralDigit(b / 16), NumeralDigit(b % 16)];
    assert digits[..1] == [NumeralDigit(b / 16)] && digits[..1][..0] == "";
    assert Number(digits[..1], 16) == Some(b / 16);
  }

  lemma {:induction false} InBytesIsWord(word: Bytes)
    ensures Legal(InBytes(word)) && Word(InBytes(word)) == word
  {
    if word != [] {
      InBytesIsWord(word[1..]);
      ByteReads(word[0]);
      var first := HexByte([NumeralDigit(word[0] / 16), NumeralDigit(word[0] % 16)]);
      assert InBytes(word).pieces == [first] + InBytes(word[1..]).pieces;
      assert word == [word[0]] + word[1..];
    }
  }

  /** So every list of Go strings, of whatever bytes, can be written and read back. */
  lemma EveryListCanBeWritten(words: seq<Bytes>)
    ensures var items := seq(|words|, i requires 0 <= i < |words| => Item(" ", InBytes(words[i])));
            Words(Print(items, "")) == Some(words)
  {
    var items := seq(|words|, i requires 0 <= i < |words| => Item(" ", InBytes(words[i])));
    forall i | 0 <= i < |words| ensures Legal(items[i].token) && Word(items[i].token) == words[i] {
      InBytesIsWord(words[i]);
    }
    assert Spaced(items, "");
    PrintThenParse(items, "");
    assert WordsOf(items) == words;
  }

  // ---- flag lists ------------------------------------------------------------

  predicate IsFlag(argument: string) { argument != "" && argument[0] == '-' }

  /** Every argument is a flag or the value of the flag right before it. */
  predicate FlagsAndValues(arguments: seq<string>) {
    forall i :: 0 <= i < |arguments| && !IsFlag(arguments[i]) ==>
      i > 0 && IsFlag(arguments[i - 1]) && '=' !in arguments[i - 1]
  }

  /** The skipping loop accepts exactly those lists. */
  method IsFlagList(arguments: seq<string>) returns (r: bool)
    ensures r <==> FlagsAndValues(arguments)
  {
    var index := 0;
    while index < |arguments|
      invariant index <= |arguments|
      invariant FlagsAndValues(arguments[..index])
      invariant 0 < index < |arguments| && !IsFlag(arguments[index]) ==>
          !IsFlag(arguments[index - 1]) || '=' in arguments[index - 1]
    {
      if !IsFlag(arguments[index]) { return false; }
      var takesNextValue := '=' !in arguments[index];
      if takesNextValue && index + 1 < |arguments| && !IsFlag(arguments[index + 1]) {
        index := index + 1;
      }
      index := index + 1;
    }
    assert arguments[..index] == arguments;
    return true;
  }
}
