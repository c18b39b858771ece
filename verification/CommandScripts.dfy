/**
  The script tokeniser and the `&&` segmenter of
  packages/analysis/src/file-stores/generated-sources/shared.ts, two loops over one quoting rule.
 */
module CommandScripts {
  import opened Options

  predicate IsWhitespace(c: char) {
    c in " \t\n\r" || c == '\U{C}' || c == '\U{B}'
  }

  /** What `trim` removes: the above and the Unicode spaces and line terminators. */
  predicate IsTrimmed(c: char) {
    IsWhitespace(c) || c in {'\U{A0}', '\U{FEFF}', '\U{1680}', '\U{2028}', '\U{2029}', '\U{202F}', '\U{205F}', '\U{3000}'}
    || '\U{2000}' <= c <= '\U{200A}'
  }

  predicate IsQuote(c: char) {
    c == '"' || c == '\''
  }

  // ----- Lexing -----

  /** The tokeniser's variables between two characters. */
  datatype Lex = Lex(tokens: seq<string>, current: string, quote: Option<char>)

  const NOTHING_READ: Lex := Lex([], "", None)

  function Flushed(l: Lex): Lex {
    if l.current == "" then l else l.(tokens := l.tokens + [l.current], current := "")
  }

  function Feed(l: Lex, c: char): Lex {
    if l.quote.Some? then (if c == l.quote.value then l.(quote := None) else l.(current := l.current + [c]))
    else if IsQuote(c) then l.(quote := Some(c))
    else if IsWhitespace(c) then Flushed(l)
    else l.(current := l.current + [c])
  }

  function Run(l: Lex, script: string): Lex
    decreases |script|
  {
    if script == "" then l else Run(Feed(l, script[0]), script[1..])
  }

  /** The tokens of a script, or nothing when a quote is not closed. */
  function Tokens(script: string): Option<seq<string>> {
    var l := Run(NOTHING_READ, script);
    if l.quote.Some? then None else Some(Flushed(l).tokens)
  }

  /** The branches of both loops for one character. */
  method ReadChar(tokens: seq<string>, current: string, quote: Option<char>, c: char)
    returns (tokens': seq<string>, current': string, quote': Option<char>)
    ensures Lex(tokens', current', quote') == Feed(Lex(tokens, current, quote), c)
  {
    tokens', current', quote' := tokens, current, quote;
    if quote.Some? {
      if c == quote.value {
        quote' := None;
      } else {
        current' := current + [c];
      }
    } else if IsQuote(c) {
      quote' := Some(c);
    } else if IsWhitespace(c) {
      if |current| > 0 {
        tokens', current' := tokens + [current], "";
      }
    } else {
      current' := current + [c];
    }
  }

  method TokenizeScript(script: string) returns (result: Option<seq<string>>)
    ensures result == Tokens(script)
  {
    var tokens: seq<string>, current: string, quote: Option<char> := [], "", None;
    var i := 0;
    while i < |script|
      invariant i <= |script|
      invariant Run(Lex(tokens, current, quote), script[i..]) == Run(NOTHING_READ, script)
    {
      assert script[i..][1..] == script[i + 1..];
      tokens, current, quote := ReadChar(tokens, current, quote, script[i]);
      i := i + 1;
    }
    if quote.Some? {
      return None;
    }
    if |current| > 0 {
      tokens := tokens + [current];
    }
    result := Some(tokens);
  }

  // ----- Segments -----

  /** A slice of the script between unquoted `&&`, with its tokens. */
  datatype RawSegment = RawSegment(text: string, tokens: seq<string>)

  predicate AtAnd(script: string) {
    |script| > 1 && script[0] == '&' && script[1] == '&'
  }

  /** The segments from here on: `text` and `l` are the slice so far and the lexer within it. */
  function Segments(script: string, text: string, l: Lex): Option<seq<RawSegment>>
    decreases |script|
  {
    if script == "" then (if l.quote.Some? then None else Some([RawSegment(text, Flushed(l).tokens)]))
    else if l.quote.None? && AtAnd(script) then
      match Segments(script[2..], "", NOTHING_READ)
      case None => None
      case Some(rest) => Some([RawSegment(text, Flushed(l).tokens)] + rest)
    else Segments(script[1..], text + [script[0]], Feed(l, script[0]))
  }

  function RawSegments(script: string): Option<seq<RawSegment>> {
    Segments(script, "", NOTHING_READ)
  }

  function TrimStart(text: string): string {
    if text != "" && IsTrimmed(text[0]) then TrimStart(text[1..]) else text
  }

  function TrimEnd(text: string): string {
    if text != "" && IsTrimmed(text[|text| - 1]) then TrimEnd(text[..|text| - 1]) else text
  }

  function Trim(text: string): string {
    TrimEnd(TrimStart(text))
  }

  datatype ParsedCommandSegment = ParsedCommandSegment(commandLine: string, command: string, args: seq<string>)

  predicate IsWordStart(c: char) {
    'a' <= c <= 'z' || 'A' <= c <= 'Z' || c == '_'
  }

  function IndexOfEquals(token: string): nat {
    if token == "" || token[0] == '=' then 0 else 1 + IndexOfEquals(token[1..])
  }

  predicate IsEnvironmentAssignment(token: string) {
    var i := IndexOfEquals(token);
    && 0 < i < |token|
    && IsWordStart(token[0])
    && forall k | 0 <= k < i && k < |token| :: IsWordStart(token[k]) || '0' <= token[k] <= '9'
  }

  predicate IsDirectCommandToken(token: string) {
    !('$' in token || '`' in token) && !IsEnvironmentAssignment(token)
  }

  /** `finalizeSegment`: a segment with tokens, a command line and a direct command. */
  function Direct(segment: RawSegment): seq<ParsedCommandSegment> {
    if segment.tokens == [] || Trim(segment.text) == "" || !IsDirectCommandToken(segment.tokens[0]) then []
    else [ParsedCommandSegment(Trim(segment.text), segment.tokens[0], segment.tokens[1..])]
  }

  function AllDirect(segments: seq<RawSegment>): seq<ParsedCommandSegment> {
    if segments == [] then [] else Direct(segments[0]) + AllDirect(segments[1..])
  }

  function DirectCommandSegments(script: string): seq<ParsedCommandSegment> {
    match RawSegments(script)
    case None => []
    case Some(segments) => AllDirect(segments)
  }

  /** What remains to be appended once the loop stands at `script[index..]` in the state of the method below. */
  function Remaining(script: string, start: nat, index: nat, l: Lex): Option<seq<ParsedCommandSegment>>
    requires start <= index <= |script|
  {
    match Segments(script[index..], script[start..index], l)
    case None => None
    case Some(segments) => Some(AllDirect(segments))
  }

  function Prepended(before: seq<ParsedCommandSegment>, rest: Option<seq<ParsedCommandSegment>>): Option<seq<ParsedCommandSegment>> {
    if rest.None? then None else Some(before + rest.value)
  }

  lemma RemainingAtAnd(script: string, start: nat, index: nat, l: Lex)
    requires start <= index < |script| && l.quote.None? && AtAnd(script[index..])
    ensures Remaining(script, start, index, l)
            == Prepended(Direct(RawSegment(script[start..index], Flushed(l).tokens)),
                         Remaining(script, index + 2, index + 2, NOTHING_READ))
  {
    assert script[index..][2..] == script[index + 2..] && script[index + 2..index + 2] == "";
    var rest := Segments(script[index + 2..], "", NOTHING_READ);
    if rest.Some? {
      assert ([RawSegment(script[start..index], Flushed(l).tokens)] + rest.value)[1..] == rest.value;
    }
  }

  lemma RemainingAtChar(script: string, start: nat, index: nat, l: Lex)
    requires start <= index < |script| && !(l.quote.None? && AtAnd(script[index..]))
    ensures Remaining(script, start, index, l) == Remaining(script, start, index + 1, Feed(l, script[index]))
  {
    assert script[index..][1..] == script[index + 1..];
    assert script[start..index] + [script[index]] == script[start..index + 1];
  }

  lemma RemainingAtEnd(script: string, start: nat, l: Lex)
    requires start <= |script|
    ensures Remaining(script, start, |script|, l)
            == if l.quote.Some? then None else Some(Direct(RawSegment(script[start..], Flushed(l).tokens)))
  {
    assert script[|script|..] == "" && script[start..|script|] == script[start..];
    var segment := RawSegment(script[start..], Flushed(l).tokens);
    assert AllDirect([segment][1..]) == [] && Direct(segment) + [] == Direct(segment);
    assert Segments("", script[start..], l) == if l.quote.Some? then None else Some([segment]);
  }

  lemma PrependedTwice(a: seq<ParsedCommandSegment>, b: seq<ParsedCommandSegment>, rest: Option<seq<ParsedCommandSegment>>)
    ensures Prepended(a, Prepended(b, rest)) == Prepended(a + b, rest)
  {
    if rest.Some? {
      assert a + (b + rest.value) == (a + b) + rest.value;
    }
  }

  lemma RemainingAtStart(script: string)
    ensures var whole := Remaining(script, 0, 0, NOTHING_READ);
            && Prepended([], whole) == whole
            && DirectCommandSegments(script) == if whole.None? then [] else whole.value
  {
    var whole := Remaining(script, 0, 0, NOTHING_READ);
    assert script[0..] == script && script[0..0] == "";
    assert whole.Some? ==> [] + whole.value == whole.value;
  }

  method ParseDirectCommandSegments(script: string) returns (segments: seq<ParsedCommandSegment>)
    ensures segments == DirectCommandSegments(script)
  {
    hide Remaining, DirectCommandSegments, Direct, Feed, Flushed;
    segments := [];
    var tokens: seq<string>, current: string, quote: Option<char> := [], "", None;
    var segmentStart, index := 0, 0;
    ghost var whole := Remaining(script, 0, 0, NOTHING_READ);
    RemainingAtStart(script);
    while index < |script|
      invariant segmentStart <= index <= |script|
      invariant whole == Prepended(segments, Remaining(script, segmentStart, index, Lex(tokens, current, quote)))
    {
      var c := script[index];
      ghost var l := Lex(tokens, current, quote);
      if quote.None? && c == '&' && index + 1 < |script| && script[index + 1] == '&' {
        var segment := RawSegment(script[segmentStart..index], Flushed(Lex(tokens, current, None)).tokens);
        RemainingAtAnd(script, segmentStart, index, l);
        PrependedTwice(segments, Direct(segment), Remaining(script, index + 2, index + 2, NOTHING_READ));
        segments := segments + Direct(segment);
        tokens, current, segmentStart := [], "", index + 2;
        index := index + 2;
      } else {
        RemainingAtChar(script, segmentStart, index, l);
        tokens, current, quote := ReadChar(tokens, current, quote, c);
        index := index + 1;
      }
    }
    RemainingAtEnd(script, segmentStart, Lex(tokens, current, quote));
    if quote.Some? {
      return [];
    }
    segments := segments + Direct(RawSegment(script[segmentStart..], Flushed(Lex(tokens, current, None)).tokens));
  }

  // ----- Both fail on the same scripts -----

  function QuoteAfter(script: string, quote: Option<char>): Option<char> {
    if script == "" then quote
    else
      QuoteAfter(script[1..],
                 if quote.Some? then (if script[0] == quote.value then None else quote)
                 else if IsQuote(script[0]) then Some(script[0]) else None)
  }

  lemma {:induction false} RunQuote(l: Lex, script: string)
    ensures Run(l, script).quote == QuoteAfter(script, l.quote)
    decreases |script|
  {
    if script != "" {
      RunQuote(Feed(l, script[0]), script[1..]);
    }
  }

  lemma {:induction false} SegmentsQuote(script: string, text: string, l: Lex)
    ensures Segments(script, text, l).None? <==> QuoteAfter(script, l.quote).Some?
    decreases |script|
  {
    if script != "" {
      if l.quote.None? && AtAnd(script) {
        SegmentsQuote(script[2..], "", NOTHING_READ);
        assert script[1..][1..] == script[2..];
        assert QuoteAfter(script, None) == QuoteAfter(script[1..], None) == QuoteAfter(script[2..], None);
      } else {
        SegmentsQuote(script[1..], text + [script[0]], Feed(l, script[0]));
      }
    }
  }

  /** Tokenising and segmenting fail exactly on a script that ends inside a quote. */
  lemma BothFailOnUnclosedQuotes(script: string)
    ensures Tokens(script).None? <==> QuoteAfter(script, None).Some?
    ensures RawSegments(script).None? <==> QuoteAfter(script, None).Some?
  {
    RunQuote(NOTHING_READ, script);
    SegmentsQuote(script, "", NOTHING_READ);
  }

  // ----- Segmenting agrees with tokenising -----

  /** The script with each unquoted `&&`, taken from the left, replaced by a space. */
  function Spaced(script: string, quote: Option<char>): string
    decreases |script|
  {
    if script == "" then ""
    else if quote.None? && AtAnd(script) then " " + Spaced(script[2..], None)
    else [script[0]] + Spaced(script[1..], Feed(Lex([], "", quote), script[0]).quote)
  }

  function AllTokens(segments: seq<RawSegment>): seq<string> {
    if segments == [] then [] else segments[0].tokens + AllTokens(segments[1..])
  }

  /** Tokens already found stay in front and have no influence. */
  lemma {:induction false} RunKeepsTokens(l: Lex, before: seq<string>, script: string)
    ensures Run(l.(tokens := before + l.tokens), script) == Run(l, script).(tokens := before + Run(l, script).tokens)
    decreases |script|
  {
    if script != "" {
      assert before + (l.tokens + [l.current]) == before + l.tokens + [l.current];
      RunKeepsTokens(Feed(l, script[0]), before, script[1..]);
    }
  }

  lemma FeedQuote(l: Lex, c: char)
    ensures Feed(l, c).quote == Feed(Lex([], "", l.quote), c).quote
  {
  }

  lemma {:induction false} SegmentTokens(script: string, text: string, l: Lex)
    requires Segments(script, text, l).Some?
    ensures AllTokens(Segments(script, text, l).value) == Flushed(Run(l, Spaced(script, l.quote))).tokens
    decreases |script|
  {
    if script == "" {
      assert AllTokens([RawSegment(text, Flushed(l).tokens)]) == Flushed(l).tokens + AllTokens([]);
    } else if l.quote.None? && AtAnd(script) {
      var rest := Segments(script[2..], "", NOTHING_READ).value;
      SegmentTokens(script[2..], "", NOTHING_READ);
      var spaced := Spaced(script[2..], None);
      assert (" " + spaced)[1..] == spaced;
      var done := Flushed(l).tokens;
      assert done + [] == done;
      assert Flushed(l) == NOTHING_READ.(tokens := done + NOTHING_READ.tokens);
      RunKeepsTokens(NOTHING_READ, done, spaced);
      var end := Run(NOTHING_READ, spaced);
      assert done + (end.tokens + [end.current]) == done + end.tokens + [end.current];
      assert ([RawSegment(text, done)] + rest)[1..] == rest;
    } else {
      SegmentTokens(script[1..], text + [script[0]], Feed(l, script[0]));
      FeedQuote(l, script[0]);
      var spaced := Spaced(script[1..], Feed(l, script[0]).quote);
      assert ([script[0]] + spaced)[1..] == spaced;
    }
  }

  lemma {:induction false} SpacedQuote(script: string, quote: Option<char>)
    ensures QuoteAfter(Spaced(script, quote), quote) == QuoteAfter(script, quote)
    decreases |script|
  {
    if script != "" {
      var spaced := Spaced(script, quote);
      if quote.None? && AtAnd(script) {
        SpacedQuote(script[2..], None);
        assert spaced[1..] == Spaced(script[2..], None);
        assert script[1..][1..] == script[2..];
        assert QuoteAfter(script, None) == QuoteAfter(script[1..], None) == QuoteAfter(script[2..], None);
      } else {
        var next := Feed(Lex([], "", quote), script[0]).quote;
        SpacedQuote(script[1..], next);
        assert spaced[1..] == Spaced(script[1..], next);
      }
    }
  }

  /**
    Segmenting agrees with tokenising: the tokens of all segments, in order, are the tokens of the script
    with each unquoted `&&` replaced by a space.
   */
  lemma SegmentingAgreesWithTokenising(script: string)
    ensures Tokens(Spaced(script, None))
            == match RawSegments(script)
               case None => None
               case Some(segments) => Some(AllTokens(segments))
  {
    BothFailOnUnclosedQuotes(script);
    SpacedQuote(script, None);
    RunQuote(NOTHING_READ, Spaced(script, None));
    if RawSegments(script).Some? {
      SegmentTokens(script, "", NOTHING_READ);
    }
  }

  function JoinedTexts(segments: seq<RawSegment>): string {
    if segments == [] then "" else if |segments| == 1 then segments[0].text
    else segments[0].text + "&&" + JoinedTexts(segments[1..])
  }

  lemma {:induction false} RunConcat(l: Lex, a: string, b: string)
    ensures Run(l, a + b) == Run(Run(l, a), b)
    decreases |a|
  {
    if a == "" {
      assert a + b == b;
    } else {
      assert (a + b)[1..] == a[1..] + b;
      RunConcat(Feed(l, a[0]), a[1..], b);
    }
  }

  ghost predicate Slices(segments: seq<RawSegment>, whole: string) {
    && segments != [] && JoinedTexts(segments) == whole
    && forall i | 0 <= i < |segments| :: Tokens(segments[i].text) == Some(segments[i].tokens)
  }

  lemma SlicesGrow(text: string, l: Lex, rest: seq<RawSegment>, script: string)
    requires Slices(rest, script) && l == Run(NOTHING_READ, text) && l.quote.None?
    ensures Slices([RawSegment(text, Flushed(l).tokens)] + rest, text + "&&" + script)
  {
    assert ([RawSegment(text, Flushed(l).tokens)] + rest)[1..] == rest;
  }

  lemma SlicesAtAnd(script: string, text: string, l: Lex, rest: seq<RawSegment>)
    requires AtAnd(script) && l.quote.None? && l == Run(NOTHING_READ, text) && Slices(rest, script[2..])
    ensures Slices([RawSegment(text, Flushed(l).tokens)] + rest, text + script)
  {
    SlicesGrow(text, l, rest, script[2..]);
    assert script == "&&" + script[2..];
    Assoc(text, "&&", script[2..]);
  }

  lemma Assoc<T>(a: seq<T>, b: seq<T>, c: seq<T>)
    ensures a + (b + c) == (a + b) + c
  {
  }

  lemma RunOneMore(text: string, c: char)
    ensures Run(NOTHING_READ, text + [c]) == Feed(Run(NOTHING_READ, text), c)
  {
    RunConcat(NOTHING_READ, text, [c]);
    var l := Run(NOTHING_READ, text);
    assert [c][1..] == "";
    assert Run(l, [c]) == Run(Feed(l, c), "");
  }

  lemma {:induction false} SegmentTexts(script: string, text: string, l: Lex)
    requires Segments(script, text, l).Some? && l == Run(NOTHING_READ, text)
    ensures Slices(Segments(script, text, l).value, text + script)
    decreases |script|
  {
    if script == "" {
      assert text + script == text;
    } else if l.quote.None? && AtAnd(script) {
      SegmentTexts(script[2..], "", NOTHING_READ);
      assert "" + script[2..] == script[2..];
      SlicesAtAnd(script, text, l, Segments(script[2..], "", NOTHING_READ).value);
    } else {
      RunOneMore(text, script[0]);
      SegmentTexts(script[1..], text + [script[0]], Feed(l, script[0]));
      assert text + [script[0]] + script[1..] == text + script;
    }
  }

  /** No unquoted `&&` is left in the text. */
  predicate Plain(text: string, quote: Option<char>) {
    Spaced(text, quote) == text
  }

  /** If nothing was replaced in what begins with `text`, there was nothing to replace in `text`. */
  lemma {:induction false} PlainPrefix(text: string, rest: string, quote: Option<char>)
    requires text <= Spaced(text + rest, quote)
    ensures Plain(text, quote)
  {
    if text != "" {
      var spaced := Spaced(text + rest, quote);
      assert spaced[0] == text[0];
      assert (text + rest)[1..] == text[1..] + rest;
      assert text[1..] <= spaced[1..];
      PlainPrefix(text[1..], rest, Feed(Lex([], "", quote), text[0]).quote);
    }
  }

  /** The text so far holds no unquoted `&&`, nor does it begin one with what follows. */
  lemma {:induction false} SegmentsArePlain(script: string, text: string, l: Lex)
    requires Segments(script, text, l).Some?
    requires Spaced(text + script, None) == text + Spaced(script, l.quote)
    ensures forall i | 0 <= i < |Segments(script, text, l).value| :: Plain(Segments(script, text, l).value[i].text, None)
    decreases |script|
  {
    if script == "" {
      assert text + script == text;
    } else if l.quote.None? && AtAnd(script) {
      PlainPrefix(text, script, None);
      assert "" + script[2..] == script[2..] && "" + Spaced(script[2..], None) == Spaced(script[2..], None);
      SegmentsArePlain(script[2..], "", NOTHING_READ);
    } else {
      assert text + [script[0]] + script[1..] == text + script;
      Assoc(text, [script[0]], Spaced(script[1..], Feed(l, script[0]).quote));
      SegmentsArePlain(script[1..], text + [script[0]], Feed(l, script[0]));
    }
  }

  /**
    The segments' texts are the slices of the script between unquoted `&&`: joined they are the script,
    none holds an unquoted `&&` itself, and each tokenises to its segment's tokens.
   */
  lemma SegmentsAreSlices(script: string)
    requires RawSegments(script).Some?
    ensures var segments := RawSegments(script).value;
            && segments != [] && JoinedTexts(segments) == script
            && forall i | 0 <= i < |segments| :: Tokens(segments[i].text) == Some(segments[i].tokens) && Plain(segments[i].text, None)
  {
    assert "" + script == script && "" + Spaced(script, None) == Spaced(script, None);
    SegmentTexts(script, "", NOTHING_READ);
    SegmentsArePlain(script, "", NOTHING_READ);
  }

  // ----- The command line test -----

  lemma {:induction false} TrimStartOfBlank(text: string)
    ensures TrimStart(text) == "" <==> forall i | 0 <= i < |text| :: IsTrimmed(text[i])
    ensures TrimStart(text) != "" ==> !IsTrimmed(TrimStart(text)[0])
  {
    if text != "" && IsTrimmed(text[0]) {
      TrimStartOfBlank(text[1..]);
      assert forall i | 1 <= i < |text| :: text[i] == text[1..][i - 1];
    }
  }

  lemma {:induction false} TrimEndKeeps(text: string)
    requires text != "" && !IsTrimmed(text[0])
    ensures TrimEnd(text) != ""
  {
    if IsTrimmed(text[|text| - 1]) {
      TrimEndKeeps(text[..|text| - 1]);
    }
  }

  lemma TrimIsEmpty(text: string)
    ensures Trim(text) == "" <==> forall i | 0 <= i < |text| :: IsTrimmed(text[i])
  {
    TrimStartOfBlank(text);
    if TrimStart(text) != "" {
      TrimEndKeeps(TrimStart(text));
    }
  }

  lemma {:induction false} BlankHasNoTokens(l: Lex, text: string)
    requires l.quote.None? && l.current == "" && forall i | 0 <= i < |text| :: IsWhitespace(text[i])
    ensures Run(l, text) == l
  {
    if text != "" {
      BlankHasNoTokens(l, text[1..]);
    }
  }

  /** Unquoted text of trimmed characters never opens a quote, and its current token only ends at a space. */
  lemma {:induction false} TrimmedStaysUnquoted(l: Lex, text: string)
    requires l.quote.None? && forall i | 0 <= i < |text| :: IsTrimmed(text[i])
    ensures Run(l, text).quote.None?
    ensures l.tokens != [] || l.current != "" || (exists i | 0 <= i < |text| :: !IsWhitespace(text[i])) ==>
              Flushed(Run(l, text)).tokens != []
    decreases |text|
  {
    if text != "" {
      TrimmedStaysUnquoted(Feed(l, text[0]), text[1..]);
      if i :| 1 <= i < |text| && !IsWhitespace(text[i]) {
        assert !IsWhitespace(text[1..][i - 1]);
      }
    }
  }

  /** Text that `trim` empties and that still has a character the tokeniser does not take for a space. */
  predicate TrimsMore(text: string) {
    && (forall i | 0 <= i < |text| :: IsTrimmed(text[i]))
    && (exists i | 0 <= i < |text| :: !IsWhitespace(text[i]))
  }

  /**
    The test for an empty command line drops tokens exactly from a segment made of spaces that `trim`
    knows, one of which the tokeniser does not.
   */
  lemma CommandLineTestDropsExactly(text: string)
    ensures Trim(text) == "" && Tokens(text) != Some([]) <==> TrimsMore(text)
  {
    TrimIsEmpty(text);
    if forall i | 0 <= i < |text| :: IsTrimmed(text[i]) {
      TrimmedStaysUnquoted(NOTHING_READ, text);
      if forall i | 0 <= i < |text| :: IsWhitespace(text[i]) {
        BlankHasNoTokens(NOTHING_READ, text);
      }
    }
  }

  /** So it never does where every space is one that the tokeniser knows, as in every ASCII script. */
  lemma CommandLineTestDropsNothing(text: string)
    requires forall i | 0 <= i < |text| :: IsTrimmed(text[i]) ==> IsWhitespace(text[i])
    requires Trim(text) == ""
    ensures Tokens(text) == Some([])
  {
    CommandLineTestDropsExactly(text);
  }

  /** The shortest such script: the tokeniser has a token and the segmenter nothing. */
  lemma UnicodeSpaceIsDropped()
    ensures Tokens("\U{A0}") == Some(["\U{A0}"])
    ensures DirectCommandSegments("\U{A0}") == []
  {
    var script := "\U{A0}";
    var l := Lex([], script, None);
    assert "" + [script[0]] == script;
    assert Feed(NOTHING_READ, script[0]) == l;
    assert script[1..] == "";
    assert Run(NOTHING_READ, script) == Run(l, "") == l;
    TrimIsEmpty(script);
    assert Flushed(l).tokens == [script];
    assert RawSegments(script) == Segments("", script, l) == Some([RawSegment(script, [script])]);
    assert AllDirect([RawSegment(script, [script])][1..]) == [];
  }

  // ----- What tokens are -----

  /** A stretch of a word: outside quotes, or inside a pair of them. */
  datatype Piece = Bare(text: string) | Quoted(quote: char, text: string)

  /** A word with the spaces in front of it. */
  datatype Word = Word(space: string, pieces: seq<Piece>)

  predicate ValidPiece(piece: Piece) {
    match piece
    case Bare(text) => forall i | 0 <= i < |text| :: text[i] !in " \t\n\r\U{B}\U{C}" && text[i] != '"' && text[i] != '\''
    case Quoted(quote, text) => (quote == '"' || quote == '\'') && forall i | 0 <= i < |text| :: text[i] != quote
  }

  predicate ValidSpace(space: string) {
    forall i | 0 <= i < |space| :: space[i] in " \t\n\r\U{B}\U{C}"
  }

  /** Words are separated by spaces. */
  predicate ValidWords(words: seq<Word>) {
    && (forall i | 0 <= i < |words| :: ValidSpace(words[i].space) && (i > 0 ==> words[i].space != ""))
    && (forall i | 0 <= i < |words| :: forall k | 0 <= k < |words[i].pieces| :: ValidPiece(words[i].pieces[k]))
  }

  function WrittenPieces(pieces: seq<Piece>): string {
    if pieces == [] then ""
    else
      (match pieces[0] case Bare(text) => text case Quoted(quote, text) => [quote] + text + [quote])
      + WrittenPieces(pieces[1..])
  }

  /** What the pieces mean: their texts without the quotes. */
  function Meant(pieces: seq<Piece>): string {
    if pieces == [] then "" else pieces[0].text + Meant(pieces[1..])
  }

  function Written(words: seq<Word>): string {
    if words == [] then "" else Written(words[..|words| - 1]) + words[|words| - 1].space + WrittenPieces(words[|words| - 1].pieces)
  }

  /** The meant texts that are not empty. */
  function MeantWords(words: seq<Word>): seq<string> {
    if words == [] then []
    else
      var last := Meant(words[|words| - 1].pieces);
      MeantWords(words[..|words| - 1]) + if last == "" then [] else [last]
  }

  lemma {:induction false} RunBare(l: Lex, text: string)
    requires l.quote.None? && ValidPiece(Bare(text))
    ensures Run(l, text) == l.(current := l.current + text)
    decreases |text|
  {
    if text != "" {
      assert ValidPiece(Bare(text[1..]));
      RunBare(Feed(l, text[0]), text[1..]);
      assert l.current + [text[0]] + text[1..] == l.current + text;
    } else {
      assert l.current + text == l.current;
    }
  }

  lemma {:induction false} RunInside(l: Lex, quote: char, text: string)
    requires l.quote == Some(quote) && ValidPiece(Quoted(quote, text))
    ensures Run(l, text) == l.(current := l.current + text)
    decreases |text|
  {
    if text != "" {
      assert ValidPiece(Quoted(quote, text[1..]));
      RunInside(Feed(l, text[0]), quote, text[1..]);
      assert l.current + [text[0]] + text[1..] == l.current + text;
    } else {
      assert l.current + text == l.current;
    }
  }

  lemma RunChar(l: Lex, c: char)
    ensures Run(l, [c]) == Feed(l, c)
  {
    assert [c][1..] == "";
    assert Run(Feed(l, c), "") == Feed(l, c);
  }

  lemma RunQuoted(l: Lex, quote: char, text: string)
    requires l.quote.None? && ValidPiece(Quoted(quote, text))
    ensures Run(l, [quote] + text + [quote]) == l.(current := l.current + text)
  {
    var inside := l.(quote := Some(quote));
    RunConcat(l, [quote] + text, [quote]);
    RunConcat(l, [quote], text);
    RunChar(l, quote);
    RunInside(inside, quote, text);
    RunChar(inside.(current := l.current + text), quote);
  }

  lemma {:induction false} RunPieces(l: Lex, pieces: seq<Piece>)
    requires l.quote.None? && forall k | 0 <= k < |pieces| :: ValidPiece(pieces[k])
    ensures Run(l, WrittenPieces(pieces)) == l.(current := l.current + Meant(pieces))
    decreases |pieces|
  {
    hide Run;
    if pieces != [] {
      var piece, rest := pieces[0], pieces[1..];
      var written := match piece case Bare(text) => text case Quoted(quote, text) => [quote] + text + [quote];
      RunConcat(l, written, WrittenPieces(rest));
      match piece {
        case Bare(text) => RunBare(l, text);
        case Quoted(quote, text) => RunQuoted(l, quote, text);
      }
      RunPieces(l.(current := l.current + piece.text), rest);
      assert l.current + piece.text + Meant(rest) == l.current + Meant(pieces);
    } else {
      assert l.current + "" == l.current;
      RunNothing(l);
    }
  }

  lemma RunNothing(l: Lex)
    ensures Run(l, "") == l
  {
  }

  lemma RunSpace(l: Lex, space: string)
    requires l.quote.None? && ValidSpace(space)
    ensures Run(l, space) == if space == "" then l else Flushed(l)
  {
    if space != "" {
      BlankHasNoTokens(Flushed(l), space[1..]);
    }
  }

  lemma {:induction false} RunWords(words: seq<Word>)
    requires ValidWords(words)
    ensures var l := Run(NOTHING_READ, Written(words)); l.quote.None? && Flushed(l).tokens == MeantWords(words)
  {
    if words != [] {
      var init, last := words[..|words| - 1], words[|words| - 1];
      var l := Run(NOTHING_READ, Written(init));
      RunWords(init);
      RunConcat(NOTHING_READ, Written(init) + last.space, WrittenPieces(last.pieces));
      RunConcat(NOTHING_READ, Written(init), last.space);
      RunSpace(l, last.space);
      RunPieces(Run(l, last.space), last.pieces);
      assert init == [] ==> l == NOTHING_READ;
      assert Flushed(l).current == "" && "" + Meant(last.pieces) == Meant(last.pieces);
    }
  }

  /**
    Tokenising undoes writing: words of quoted and unquoted pieces, separated by spaces, come back as their
    texts without the quotes and with whatever stands inside them, spaces and the other quote included; a
    word without text is no token.
   */
  lemma TokensRoundTrip(words: seq<Word>, end: string)
    requires ValidWords(words) && ValidSpace(end)
    ensures Tokens(Written(words) + end) == Some(MeantWords(words))
  {
    var l := Run(NOTHING_READ, Written(words));
    RunWords(words);
    RunConcat(NOTHING_READ, Written(words), end);
    RunSpace(l, end);
  }

  // ----- What a direct command is -----

  lemma {:induction false} IndexOfEqualsIsFirst(token: string)
    ensures var i := IndexOfEquals(token);
            i <= |token| && (i < |token| ==> token[i] == '=') && forall k | 0 <= k < i :: token[k] != '='
  {
    if token != "" && token[0] != '=' {
      IndexOfEqualsIsFirst(token[1..]);
      var i := IndexOfEquals(token[1..]);
      assert i < |token[1..]| ==> token[i + 1] == '=';
      assert forall k | 1 <= k < i + 1 :: token[k] == token[1..][k - 1];
    }
  }

  predicate IsNamePart(c: char) {
    'a' <= c <= 'z' || 'A' <= c <= 'Z' || c == '_' || '0' <= c <= '9'
  }

  /** The token begins with a name and an equals sign. */
  predicate Assigns(token: string, i: nat) {
    && 0 < i < |token| && token[i] == '=' && !('0' <= token[0] <= '9')
    && forall k | 0 <= k < i :: IsNamePart(token[k])
  }

  lemma EnvironmentAssignmentIsName(token: string)
    ensures IsEnvironmentAssignment(token) <==> exists i: nat :: Assigns(token, i)
  {
    var first := IndexOfEquals(token);
    IndexOfEqualsIsFirst(token);
    if IsEnvironmentAssignment(token) {
      assert Assigns(token, first);
    }
    if i: nat :| Assigns(token, i) {
      assert first <= i && !IsNamePart('=');
      assert first == i;
    }
  }

  /** `trimmed` is `text` between `m` and `n`, and only spaces are cut off. */
  predicate CutTo(text: string, trimmed: string, m: nat, n: nat) {
    && m <= n <= |text| && trimmed == text[m..n]
    && (forall i | 0 <= i < m :: IsTrimmed(text[i])) && (forall i | n <= i < |text| :: IsTrimmed(text[i]))
  }

  lemma {:induction false} TrimStartCuts(text: string)
    ensures exists m: nat :: CutTo(text, TrimStart(text), m, |text|)
  {
    if text != "" && IsTrimmed(text[0]) {
      TrimStartCuts(text[1..]);
      var m: nat :| CutTo(text[1..], TrimStart(text[1..]), m, |text[1..]|);
      assert forall i | 1 <= i < m + 1 :: text[i] == text[1..][i - 1];
      assert CutTo(text, TrimStart(text), m + 1, |text|);
    } else {
      assert CutTo(text, TrimStart(text), 0, |text|);
    }
  }

  lemma {:induction false} TrimEndCuts(text: string)
    ensures exists n: nat :: CutTo(text, TrimEnd(text), 0, n)
    ensures TrimEnd(text) != "" ==> !IsTrimmed(TrimEnd(text)[|TrimEnd(text)| - 1])
  {
    if text != "" && IsTrimmed(text[|text| - 1]) {
      var init := text[..|text| - 1];
      TrimEndCuts(init);
      var n: nat :| CutTo(init, TrimEnd(init), 0, n);
      assert forall i | n <= i < |init| :: init[i] == text[i];
      assert CutTo(text, TrimEnd(text), 0, n);
    } else {
      assert CutTo(text, TrimEnd(text), 0, |text|);
    }
  }

  lemma CutTwice(text: string, start: string, trimmed: string, m: nat, n: nat)
    requires CutTo(text, start, m, |text|) && CutTo(start, trimmed, 0, n)
    ensures CutTo(text, trimmed, m, m + n)
  {
    forall i | m + n <= i < |text|
      ensures IsTrimmed(text[i])
    {
      assert text[i] == start[i - m];
    }
  }

  /** `trimmed` is `text` without the spaces around it. */
  ghost predicate IsTrimOf(trimmed: string, text: string) {
    && (exists m: nat, n: nat :: CutTo(text, trimmed, m, n))
    && (trimmed != "" ==> !IsTrimmed(trimmed[0]) && !IsTrimmed(trimmed[|trimmed| - 1]))
  }

  lemma TrimIsTrim(text: string)
    ensures IsTrimOf(Trim(text), text)
  {
    hide TrimStart, TrimEnd, IsTrimmed;
    var start := TrimStart(text);
    TrimStartCuts(text);
    TrimStartOfBlank(text);
    TrimEndCuts(start);
    var m: nat :| CutTo(text, start, m, |text|);
    var n: nat :| CutTo(start, TrimEnd(start), 0, n);
    CutTwice(text, start, TrimEnd(start), m, n);
    if Trim(text) != "" {
      assert Trim(text)[0] == start[0];
    }
  }

  /**
    What becomes of a segment: nothing if it has no tokens or no text, or if its first token holds a dollar
    sign or a backquote or begins as an assignment; else its trimmed text, its first token and the others.
   */
  lemma DirectExactly(segment: RawSegment)
    ensures var tokens, commands := segment.tokens, Direct(segment);
            if || tokens == [] || (forall i | 0 <= i < |segment.text| :: IsTrimmed(segment.text[i]))
               || (exists i | 0 <= i < |tokens[0]| :: tokens[0][i] == '$' || tokens[0][i] == '`')
               || (exists i: nat :: Assigns(tokens[0], i))
            then commands == []
            else |commands| == 1 && IsTrimOf(commands[0].commandLine, segment.text) && commands[0].commandLine != ""
                 && [commands[0].command] + commands[0].args == tokens
  {
    TrimIsEmpty(segment.text);
    TrimIsTrim(segment.text);
    if segment.tokens != [] {
      EnvironmentAssignmentIsName(segment.tokens[0]);
    }
  }

  /** The segments contribute their commands one after the other. */
  lemma {:induction false} CommandsInOrder(a: seq<RawSegment>, b: seq<RawSegment>)
    ensures AllDirect(a + b) == AllDirect(a) + AllDirect(b)
    ensures forall segment :: AllDirect([segment]) == Direct(segment)
  {
    forall segment
      ensures AllDirect([segment]) == Direct(segment)
    {
      assert [segment][1..] == [];
    }
    if a == [] {
      assert a + b == b;
    } else {
      assert (a + b)[1..] == a[1..] + b;
      CommandsInOrder(a[1..], b);
    }
  }
}
