/**
 Encoded RDF terms: the literal, language tag and IRI body checks of incoming
 records, against the grammar of section 7 of RDF 1.1 N-Triples. The code admits
 raw line breaks in a quoted string, and IRI bodies without escapes.
 */
module Terms {
  import opened Wrappers

  // ----- The grammar, by code points -----

  predicate IsBetween(c: char, low: int, high: int) {
    low <= c as int <= high
  }

  predicate IsLetter(c: char) {
    IsBetween(c, 0x41, 0x5A) || IsBetween(c, 0x61, 0x7A)
  }

  /** HEX */
  predicate IsHex(c: char) {
    IsBetween(c, 0x30, 0x39) || IsBetween(c, 0x41, 0x46) || IsBetween(c, 0x61, 0x66)
  }

  /** IRIREF without its angle brackets: nothing up to the space, and none of these nine. */
  predicate IsIriBody(body: string) {
    && |body| > 0
    && forall i :: 0 <= i < |body| ==>
                     body[i] as int > 0x20 && body[i] as int !in {0x22, 0x3C, 0x3E, 0x5C, 0x5E, 0x60, 0x7B, 0x7C, 0x7D}
  }

  // ----- The character checks of the code -----

  predicate Alpha(c: char) {
    'a' <= c <= 'z' || 'A' <= c <= 'Z'
  }

  predicate Digit(c: char) {
    '0' <= c <= '9'
  }

  predicate HexDigit(c: char) {
    Digit(c) || 'a' <= c <= 'f' || 'A' <= c <= 'F'
  }

  predicate AllAlpha(s: string) {
    forall i :: 0 <= i < |s| ==> Alpha(s[i])
  }

  predicate AllAlphanumeric(s: string) {
    forall i :: 0 <= i < |s| ==> Alpha(s[i]) || Digit(s[i])
  }

  predicate AllHex(s: string) {
    forall i :: 0 <= i < |s| ==> HexDigit(s[i])
  }

  predicate IriBodyOk(body: string) {
    && body != ""
    && forall i :: 0 <= i < |body| ==> body[i] > ' ' && body[i] !in "<>\"{}|^`\\"
  }

  // ----- Language tags -----

  /** `str::split('-')`. */
  function Split(s: string): (parts: seq<string>)
    ensures parts != []
  {
    if s == "" then [""]
    else
      var rest := Split(s[1..]);
      if s[0] == '-' then [""] + rest else [[s[0]] + rest[0]] + rest[1..]
  }

  function Join(parts: seq<string>): string
    requires parts != []
  {
    if |parts| == 1 then parts[0] else parts[0] + "-" + Join(parts[1..])
  }

  predicate LanguageOk(tag: string) {
    var parts := Split(tag);
    && parts[0] != "" && AllAlpha(parts[0])
    && forall i :: 1 <= i < |parts| ==> parts[i] != "" && AllAlphanumeric(parts[i])
  }

  /** LANGTAG: letters, then subtags of letters and digits. */
  predicate TagParts(parts: seq<string>) {
    && parts != [] && forall i :: 0 <= i < |parts| ==> TagPart(parts[i], i > 0)
  }

  predicate TagPart(part: string, digits: bool) {
    |part| > 0 && forall k :: 0 <= k < |part| ==> IsLetter(part[k]) || (digits && IsBetween(part[k], 0x30, 0x39))
  }

  lemma PartRecognised(part: string)
    ensures TagPart(part, false) <==> part != "" && AllAlpha(part)
    ensures TagPart(part, true) <==> part != "" && AllAlphanumeric(part)
  {}

  lemma PartsRecognised(parts: seq<string>)
    requires parts != []
    ensures TagParts(parts) <==> parts[0] != "" && AllAlpha(parts[0])
                                 && forall i :: 1 <= i < |parts| ==> parts[i] != "" && AllAlphanumeric(parts[i])
  {
    forall i | 0 <= i < |parts|
      ensures TagPart(parts[i], false) <==> parts[i] != "" && AllAlpha(parts[i])
      ensures TagPart(parts[i], true) <==> parts[i] != "" && AllAlphanumeric(parts[i])
    {
      PartRecognised(parts[i]);
    }
  }

  ghost predicate IsLanguageTag(tag: string) {
    exists parts: seq<string> :: TagParts(parts) && tag == Join(parts)
  }

  lemma {:induction false} JoinSplit(s: string)
    ensures Join(Split(s)) == s
  {
    if s != "" {
      JoinSplit(s[1..]);
      var rest := Split(s[1..]);
      assert s == [s[0]] + s[1..];
      if s[0] == '-' {
        assert ([""] + rest)[1..] == rest;
      } else {
        assert ([[s[0]] + rest[0]] + rest[1..])[1..] == rest[1..];
      }
    }
  }

  lemma {:induction false} SplitPart(part: string, rest: string)
    requires forall i :: 0 <= i < |part| ==> part[i] != '-'
    ensures Split(part + "-" + rest) == [part] + Split(rest)
    decreases |part|
  {
    var s := part + "-" + rest;
    if part == "" {
      assert s[1..] == rest;
    } else {
      SplitPart(part[1..], rest);
      assert s[1..] == part[1..] + "-" + rest;
      assert [part[0]] + part[1..] == part;
    }
  }

  lemma {:induction false} SplitWhole(part: string)
    requires forall i :: 0 <= i < |part| ==> part[i] != '-'
    ensures Split(part) == [part]
  {
    if part != "" {
      SplitWhole(part[1..]);
      assert [part[0]] + part[1..] == part;
    }
  }

  lemma {:induction false} SplitJoin(parts: seq<string>)
    requires parts != [] && forall i, k :: 0 <= i < |parts| && 0 <= k < |parts[i]| ==> parts[i][k] != '-'
    ensures Split(Join(parts)) == parts
    decreases |parts|
  {
    if |parts| == 1 {
      SplitWhole(parts[0]);
    } else {
      SplitJoin(parts[1..]);
      SplitPart(parts[0], Join(parts[1..]));
    }
  }

  /** The tag check accepts exactly the LANGTAG forms. */
  lemma LanguageRecognised(tag: string)
    ensures LanguageOk(tag) <==> IsLanguageTag(tag)
  {
    JoinSplit(tag);
    PartsRecognised(Split(tag));
    if parts: seq<string> :| TagParts(parts) && tag == Join(parts) {
      forall i, k | 0 <= i < |parts| && 0 <= k < |parts[i]| ensures parts[i][k] != '-' {
        assert TagPart(parts[i], i > 0);
      }
      SplitJoin(parts);
    }
  }

  // ----- Quoted strings -----

  /** One unit of a quoted string: a raw character, a short escape, or a numeric escape. */
  datatype Unit = Raw(c: char) | Short(c: char) | Numeric(mark: char, digits: string)

  function Width(mark: char): nat {
    if mark == 'u' then 4 else if mark == 'U' then 8 else 0
  }

  predicate ShortEscape(c: char) {
    c == 't' || c == 'b' || c == 'n' || c == 'r' || c == 'f' || c == '"' || c == '\'' || c == '\\'
  }

  predicate ValidUnit(u: Unit) {
    match u
    case Raw(c) => c != '"' && c != '\\'
    case Short(c) => c in "tbnrf\"'\\"
    case Numeric(mark, digits) =>
      && ((mark == 'u' && |digits| == 4) || (mark == 'U' && |digits| == 8))
      && forall i :: 0 <= i < |digits| ==> IsHex(digits[i])
  }

  predicate ValidUnits(us: seq<Unit>) {
    forall i :: 0 <= i < |us| ==> ValidUnit(us[i])
  }

  function RenderUnit(u: Unit): string {
    match u
    case Raw(c) => [c]
    case Short(c) => ['\\', c]
    case Numeric(mark, digits) => ['\\', mark] + digits
  }

  function Render(us: seq<Unit>): string {
    if us == [] then "" else RenderUnit(us[0]) + Render(us[1..])
  }

  /** A quoted string from after its opening quote, with what follows it. */
  function Body(us: seq<Unit>, rest: string): string {
    Render(us) + "\"" + rest
  }

  lemma BodyOfMore(u: Unit, us: seq<Unit>, rest: string)
    ensures Body([u] + us, rest) == RenderUnit(u) + Body(us, rest)
  {
    assert ([u] + us)[1..] == us;
  }

  lemma HexRecognised(digits: string)
    ensures AllHex(digits) <==> forall i :: 0 <= i < |digits| ==> IsHex(digits[i])
  {}

  lemma ShortRecognised(c: char)
    ensures ShortEscape(c) <==> c in "tbnrf\"'\\"
  {}

  datatype Scanned = Scanned(units: seq<Unit>, rest: string)

  /** The first unit of a string, if it starts with one. */
  function FirstUnit(s: string): Option<Unit> {
    if s == "" || s[0] == '"' then None
    else if s[0] != '\\' then Some(Raw(s[0]))
    else if |s| < 2 then None
    else if ShortEscape(s[1]) then Some(Short(s[1]))
    else if s[1] != 'u' && s[1] != 'U' then None
    else
      var width := Width(s[1]);
      if |s| >= 2 + width && AllHex(s[2..2 + width]) then Some(Numeric(s[1], s[2..2 + width])) else None
  }

  /** The units up to the closing quote and what follows it. */
  function Scan(s: string): Option<Scanned> {
    if s != "" && s[0] == '"' then Some(Scanned([], s[1..]))
    else
      match FirstUnit(s)
      case None => None
      case Some(u) =>
        FirstUnitIsPrefix(s);
        match Scan(s[|RenderUnit(u)|..])
        case None => None
        case Some(after) => Some(Scanned([u] + after.units, after.rest))
  }

  lemma FirstUnitIsPrefix(s: string)
    requires FirstUnit(s).Some?
    ensures var u := FirstUnit(s).value;
            ValidUnit(u) && 0 < |RenderUnit(u)| <= |s| && s == RenderUnit(u) + s[|RenderUnit(u)|..]
  {
    match FirstUnit(s).value {
      case Raw(c) =>
        assert s == [c] + s[1..];
      case Short(c) =>
        ShortRecognised(c);
        assert s == ['\\', c] + s[2..];
      case Numeric(_, digits) =>
        HexRecognised(digits);
        NumericSplits(s, |digits|);
    }
  }

  lemma NumericSplits(s: string, width: nat)
    requires |s| >= 2 + width
    ensures s == [s[0], s[1]] + s[2..2 + width] + s[2 + width..]
  {}

  lemma FirstUnitFound(u: Unit, rest: string)
    requires ValidUnit(u)
    ensures FirstUnit(RenderUnit(u) + rest) == Some(u)
  {
    var s := RenderUnit(u) + rest;
    match u {
      case Raw(_) =>
      case Short(c) => ShortRecognised(c);
      case Numeric(mark, digits) =>
        HexRecognised(digits);
        assert s[1] == mark && s[2..2 + |digits|] == digits;
    }
  }

  lemma {:induction false} ScanSound(s: string)
    requires Scan(s).Some?
    ensures ValidUnits(Scan(s).value.units) && s == Body(Scan(s).value.units, Scan(s).value.rest)
    decreases |s|
  {
    if s != "" && s[0] == '"' {
      assert s == "\"" + s[1..];
    } else {
      FirstUnitIsPrefix(s);
      var u := FirstUnit(s).value;
      var tail := s[|RenderUnit(u)|..];
      ScanSound(tail);
      var after := Scan(tail).value;
      BodyOfMore(u, after.units, after.rest);
    }
  }

  lemma {:induction false} ScanComplete(us: seq<Unit>, rest: string)
    requires ValidUnits(us)
    ensures Scan(Body(us, rest)) == Some(Scanned(us, rest))
    decreases |us|
  {
    var s := Body(us, rest);
    if us == [] {
      assert s[1..] == rest;
    } else {
      var tail := Body(us[1..], rest);
      assert [us[0]] + us[1..] == us;
      BodyOfMore(us[0], us[1..], rest);
      FirstUnitFound(us[0], tail);
      ScanComplete(us[1..], rest);
      assert s[|RenderUnit(us[0])|..] == tail;
      assert s[0] == RenderUnit(us[0])[0];
    }
  }

  // ----- Literals -----

  ghost predicate IsSuffix(s: string) {
    || s == ""
    || (s[0] == '@' && IsLanguageTag(s[1..]))
    || (exists iri: string :: s == "^^<" + iri + ">" && IsIriBody(iri))
  }

  ghost predicate IsLiteralAs(text: string, us: seq<Unit>, suffix: string) {
    ValidUnits(us) && text == ['"'] + Body(us, suffix) && IsSuffix(suffix)
  }

  /** A literal: a quoted string, then nothing, a language tag or a datatype IRI. */
  ghost predicate IsLiteral(text: string) {
    exists us: seq<Unit>, suffix: string :: IsLiteralAs(text, us, suffix)
  }

  predicate SuffixOk(rest: string) {
    || rest == ""
    || (rest[0] == '@' && LanguageOk(rest[1..]))
    || (|rest| >= 4 && rest[..3] == "^^<" && rest[|rest| - 1] == '>' && IriBodyOk(rest[3..|rest| - 1]))
  }

  lemma IriRecognised(body: string)
    ensures IriBodyOk(body) <==> IsIriBody(body)
  {
    forall i | 0 <= i < |body|
      ensures body[i] > ' ' && body[i] !in "<>\"{}|^`\\"
         <==> body[i] as int > 0x20 && body[i] as int !in {0x22, 0x3C, 0x3E, 0x5C, 0x5E, 0x60, 0x7B, 0x7C, 0x7D}
    {
      IriCharRecognised(body[i]);
    }
  }

  lemma IriCharRecognised(c: char)
    ensures c > ' ' && c !in "<>\"{}|^`\\" <==> c as int > 0x20 && c as int !in {0x22, 0x3C, 0x3E, 0x5C, 0x5E, 0x60, 0x7B, 0x7C, 0x7D}
  {}

  lemma SuffixRecognised(rest: string)
    ensures SuffixOk(rest) <==> IsSuffix(rest)
  {
    if rest != "" {
      LanguageRecognised(rest[1..]);
      if |rest| >= 4 && rest[..3] == "^^<" && rest[|rest| - 1] == '>' {
        IriRecognised(rest[3..|rest| - 1]);
        assert rest == "^^<" + rest[3..|rest| - 1] + ">";
      }
      if iri: string :| rest == "^^<" + iri + ">" && IsIriBody(iri) {
        IriRecognised(iri);
        assert rest[3..|rest| - 1] == iri && rest[..3] == "^^<";
      }
    }
  }

  /** The closing quote is unique: a text reads as a literal in at most one way. */
  lemma LiteralIsUnambiguous(text: string, us: seq<Unit>, suffix: string, us': seq<Unit>, suffix': string)
    requires IsLiteralAs(text, us, suffix) && IsLiteralAs(text, us', suffix')
    ensures us == us' && suffix == suffix'
  {
    ScanComplete(us, suffix);
    ScanComplete(us', suffix');
    assert text[1..] == Body(us, suffix);
  }

  lemma LiteralByScan(text: string)
    ensures IsLiteral(text) <==> text != "" && text[0] == '"' && Scan(text[1..]).Some? && IsSuffix(Scan(text[1..]).value.rest)
  {
    if us: seq<Unit>, suffix: string :| IsLiteralAs(text, us, suffix) {
      assert text[1..] == Body(us, suffix);
      ScanComplete(us, suffix);
    }
    if text != "" && text[0] == '"' && Scan(text[1..]).Some? && IsSuffix(Scan(text[1..]).value.rest) {
      ScanSound(text[1..]);
      var after := Scan(text[1..]).value;
      assert text == ['"'] + text[1..];
      assert IsLiteralAs(text, after.units, after.rest);
    }
  }

  /** Skips one character or escape inside the quotes. */
  method SkipUnit(rest: string) returns (r: Option<string>)
    requires rest != "" && rest[0] != '"'
    ensures r.None? <==> FirstUnit(rest).None?
    ensures r.Some? ==> r.value == rest[|RenderUnit(FirstUnit(rest).value)|..] && |r.value| < |rest|
  {
    if rest[0] != '\\' {
      return Some(rest[1..]);
    }
    if |rest| < 2 {
      return None;
    }
    var escape := rest[1];
    if !ShortEscape(escape) && escape != 'u' && escape != 'U' {
      return None;
    }
    var width := if ShortEscape(escape) then 0 else Width(escape);
    if |rest| < 2 + width || !AllHex(rest[2..2 + width]) {
      return None;
    }
    return Some(rest[2 + width..]);
  }

  /** The scanning loop accepts exactly the literals of the grammar. */
  method LiteralOk(text: string) returns (ok: bool)
    ensures ok <==> IsLiteral(text)
  {
    LiteralByScan(text);
    if text == "" || text[0] != '"' {
      return false;
    }
    var rest := text[1..];
    while true
      invariant Scan(text[1..]).Some? <==> Scan(rest).Some?
      invariant Scan(rest).Some? ==> Scan(rest).value.rest == Scan(text[1..]).value.rest
      decreases |rest|
    {
      if rest == "" {
        return false;
      }
      if rest[0] == '"' {
        rest := rest[1..];
        break;
      }
      var next := SkipUnit(rest);
      if next.None? {
        return false;
      }
      rest := next.value;
    }
    SuffixRecognised(rest);
    return SuffixOk(rest);
  }

  // ----- Writing a value -----

  /** How a value's character is written: the short escapes, else the character itself. */
  function Quoted(c: char): (u: Unit)
    ensures ValidUnit(u)
  {
    if c == '"' || c == '\\' then Short(c)
    else if c == '\n' then Short('n')
    else if c == '\r' then Short('r')
    else if c == '\t' then Short('t')
    else Raw(c)
  }

  function Quote(value: string): seq<Unit> {
    seq(|value|, i requires 0 <= i < |value| => Quoted(value[i]))
  }

  /** Every escaped and quoted value is accepted, with any legal suffix. */
  lemma QuotedIsLiteral(value: string, suffix: string)
    requires IsSuffix(suffix)
    ensures IsLiteral(['"'] + Body(Quote(value), suffix))
  {
    assert IsLiteralAs(['"'] + Body(Quote(value), suffix), Quote(value), suffix);
  }
}
