/** Recovering the JSON object from the AI model's reply (`extract_json`).
    `json.loads` is an oracle: a parser that returns a value or the text of
    its decoding error. */
module JsonExtract {
  import opened Wrappers
  import opened Strings

  /** `json.loads`: a decoded value, or the message of a `JSONDecodeError`. */
  type Parser<J> = string -> Result<J, string>

  /** Why no JSON could be recovered. */
  datatype ExtractError = NoJsonObject | CouldNotParse(detail: string) {
    /** The message of the `ValueError` that `extract_json` raises. */
    function Text(): string {
      match this
      case NoJsonObject => "No JSON object found in response"
      case CouldNotParse(detail) => "Could not parse JSON: " + detail
    }
  }

  /** The position of the first `c` in `s`, if any. */
  function FirstIndex(s: string, c: char): (r: Option<nat>)
    ensures r.Some? ==> r.value < |s| && s[r.value] == c && forall k :: 0 <= k < r.value ==> s[k] != c
    ensures r.None? ==> c !in s
  {
    if s == [] then None
    else if s[0] == c then Some(0)
    else match FirstIndex(s[1..], c)
      case None => None
      case Some(i) => Some(i + 1)
  }

  /** The position of the last `c` in `s`, if any. */
  function LastIndex(s: string, c: char): (r: Option<nat>)
    ensures r.Some? ==> r.value < |s| && s[r.value] == c && forall k :: r.value < k < |s| ==> s[k] != c
    ensures r.None? ==> c !in s
  {
    if s == [] then None
    else if s[|s| - 1] == c then Some(|s| - 1)
    else
      LastIndex(s[..|s| - 1], c)
  }

  /** What `re.search(r"\{[\s\S]*\}", text)` matches: the leftmost `{`
      followed, greedily, by everything up to the last `}` after it. */
  function BraceSpan(text: string): Option<string> {
    match FirstIndex(text, '{')
    case None => None
    case Some(i) =>
      match LastIndex(text, '}')
      case None => None
      case Some(j) => if j < i then None else Some(text[i..j + 1])
  }

  /** A match runs from the first `{` of the text to its last `}`. */
  lemma BraceSpanBounds(text: string)
    requires BraceSpan(text).Some?
    ensures FirstIndex(text, '{').Some? && LastIndex(text, '}').Some?
    ensures var i, j := FirstIndex(text, '{').value, LastIndex(text, '}').value;
      var span := BraceSpan(text).value;
      && i < j && span == text[i..j + 1]
      && span[0] == '{' && span[|span| - 1] == '}'
  {
    var i, j := FirstIndex(text, '{').value, LastIndex(text, '}').value;
    assert text[i..j + 1][0] == text[i];
  }

  /** There is no match exactly when no `}` comes after a `{`. */
  lemma BraceSpanAbsent(text: string)
    ensures BraceSpan(text).None? <==>
      forall a, b :: 0 <= a < b < |text| && text[a] == '{' ==> text[b] != '}'
  {
    if BraceSpan(text).Some? {
      BraceSpanBounds(text);
    }
  }

  /** The longest prefix `span[..k]`, `k` from `n` down to 1, that parses. */
  function LongestParsedPrefix<J>(span: string, n: nat, parse: Parser<J>): Option<J>
    requires n <= |span|
    decreases n
  {
    if n == 0 then None
    else match parse(span[..n])
      case Success(v) => Some(v)
      case Failure(_) => LongestParsedPrefix(span, n - 1, parse)
  }

  /** Some prefix of length 1 to `n` is found exactly when one parses, and
      the one found is the longest that does. */
  lemma {:induction false} LongestParsedPrefixSpec<J>(span: string, n: nat, parse: Parser<J>)
    requires n <= |span|
    ensures var r := LongestParsedPrefix(span, n, parse);
      && (r.Some? <==> exists k :: 1 <= k <= n && parse(span[..k]).Success?)
      && (r.Some? ==> exists k :: 1 <= k <= n && parse(span[..k]) == Success(r.value)
                                  && forall m :: k < m <= n ==> parse(span[..m]).Failure?)
    decreases n
  {
    if n > 0 && parse(span[..n]).Failure? {
      LongestParsedPrefixSpec(span, n - 1, parse);
    }
  }

  /** The value `extract_json(text)` returns, or the error it raises: the
      stripped text if it parses, else the brace span if it parses, else
      the longest prefix of the span that parses. */
  function Extracted<J>(text: string, parse: Parser<J>): Result<J, ExtractError> {
    var t := PyStrip(text);
    match parse(t)
    case Success(v) => Success(v)
    case Failure(_) =>
      match BraceSpan(t)
      case None => Failure(NoJsonObject)
      case Some(span) => FromSpan(span, parse)
  }

  /** The brace span parsed whole, else its longest parseable prefix; the
      error names the span's own decoding error. */
  function FromSpan<J>(span: string, parse: Parser<J>): Result<J, ExtractError> {
    match parse(span)
    case Success(v) => Success(v)
    case Failure(e) =>
      match LongestParsedPrefix(span, |span|, parse)
      case Some(v) => Success(v)
      case None => Failure(CouldNotParse(e))
  }

  /** `extract_json`, with its descending-length prefix loop. */
  method ExtractJson<J>(text: string, parse: Parser<J>) returns (r: Result<J, ExtractError>)
    ensures r == Extracted(text, parse)
  {
    var t := PyStrip(text);
    var whole := parse(t);
    if whole.Success? {
      return Success(whole.value);
    }
    var found := BraceSpan(t);
    if found.None? {
      return Failure(NoJsonObject);
    }
    var span := found.value;
    var first := parse(span);
    if first.Success? {
      return Success(first.value);
    }
    var prefix := LongestPrefix(span, parse);
    if prefix.Some? {
      return Success(prefix.value);
    }
    return Failure(CouldNotParse(first.error));
  }

  /** The prefix loop of `extract_json`: lengths from the whole span down
      to 1, stopping at the first that parses. */
  method LongestPrefix<J>(span: string, parse: Parser<J>) returns (r: Option<J>)
    ensures r == LongestParsedPrefix(span, |span|, parse)
  {
    var i := |span|;
    while i > 0
      invariant 0 <= i <= |span|
      invariant LongestParsedPrefix(span, |span|, parse) == LongestParsedPrefix(span, i, parse)
    {
      var attempt := parse(span[..i]);
      if attempt.Success? {
        assert LongestParsedPrefix(span, i, parse) == Some(attempt.value);
        return Some(attempt.value);
      }
      assert LongestParsedPrefix(span, i, parse) == LongestParsedPrefix(span, i - 1, parse);
      i := i - 1;
    }
    return None;
  }

  /** A reply that is JSON once stripped is returned as parsed. */
  lemma WholeTextFirst<J>(text: string, parse: Parser<J>)
    requires parse(PyStrip(text)).Success?
    ensures Extracted(text, parse) == Success(parse(PyStrip(text)).value)
  {
  }

  /** Otherwise the result comes from the brace span: the span itself if it
      parses, else its longest parseable prefix. */
  lemma SpanFallback<J>(text: string, parse: Parser<J>)
    requires parse(PyStrip(text)).Failure?
    requires BraceSpan(PyStrip(text)).Some?
    ensures var span := BraceSpan(PyStrip(text)).value;
      match Extracted(text, parse)
      case Success(v) =>
        parse(span) == Success(v)
        || (parse(span).Failure?
            && exists k :: 1 <= k <= |span| && parse(span[..k]) == Success(v)
                           && forall m :: k < m <= |span| ==> parse(span[..m]).Failure?)
      case Failure(e) =>
        parse(span).Failure? && e == CouldNotParse(parse(span).error)
        && forall k :: 1 <= k <= |span| ==> parse(span[..k]).Failure?
  {
    var span := BraceSpan(PyStrip(text)).value;
    assert Extracted(text, parse) == FromSpan(span, parse);
    LongestParsedPrefixSpec(span, |span|, parse);
  }

  /** "No JSON object found" is raised exactly when the stripped text does
      not parse and holds no brace span. */
  lemma NoJsonObjectIff<J>(text: string, parse: Parser<J>)
    ensures var t := PyStrip(text);
      (Extracted(text, parse) == Failure(NoJsonObject)) <==> (parse(t).Failure? && BraceSpan(t).None?)
  {
    var t := PyStrip(text);
    if parse(t).Failure? && BraceSpan(t).Some? {
      FromSpanNotNoJson(BraceSpan(t).value, parse);
    }
  }

  /** The span fallback never reports a missing object. */
  lemma FromSpanNotNoJson<J>(span: string, parse: Parser<J>)
    ensures FromSpan(span, parse) != Failure(NoJsonObject)
  {
  }

  /** The span fallback fails exactly when no prefix of the span, the span
      itself included, parses; its error is then the span's own. */
  lemma FromSpanFails<J>(span: string, parse: Parser<J>)
    requires span != []
    ensures FromSpan(span, parse).Failure? <==> forall k :: 1 <= k <= |span| ==> parse(span[..k]).Failure?
    ensures FromSpan(span, parse).Failure? ==> FromSpan(span, parse).error == CouldNotParse(parse(span).error)
  {
    assert span[..|span|] == span;
    LongestParsedPrefixSpec(span, |span|, parse);
  }

  /** "Could not parse JSON" is raised exactly when there is a brace span and
      none of its prefixes, the span itself included, parses. */
  lemma CouldNotParseIff<J>(text: string, parse: Parser<J>)
    ensures var t := PyStrip(text);
      (Extracted(text, parse).Failure? && Extracted(text, parse).error.CouldNotParse?)
        <==> (parse(t).Failure? && BraceSpan(t).Some?
              && forall k :: 1 <= k <= |BraceSpan(t).value| ==> parse(BraceSpan(t).value[..k]).Failure?)
  {
    var t := PyStrip(text);
    var r := Extracted(text, parse);
    if parse(t).Failure? && BraceSpan(t).Some? {
      var span := BraceSpan(t).value;
      assert r == FromSpan(span, parse);
      BraceSpanBounds(t);
      FromSpanFails(span, parse);
    } else if parse(t).Success? {
      assert r.Success?;
    } else {
      assert r == Failure(NoJsonObject);
    }
  }
}
