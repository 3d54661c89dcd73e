/**
 * `NewsAnalyzer._parse_llm_response`: the rating and sentiment read from the
 * model's reply, line by line, with defaults for what the reply omits.
 */
module LlmReply {
  import opened Wrappers
  import opened PyStr

  datatype Sentiment = Bullish | Bearish | Neutral

  /** The result dictionary: `importance` and `sentiment`. */
  datatype Analysis = Analysis(importance: int, sentiment: Sentiment)

  /** Importance 5 and sentiment `NEUTRAL` until a line says otherwise. */
  const Defaults := Analysis(5, Neutral)

  predicate IsDigit(c: char)
  {
    '0' <= c <= '9'
  }

  /** A text of decimal digits alone. */
  predicate AllDigits(s: string)
  {
    forall i :: 0 <= i < |s| ==> IsDigit(s[i])
  }

  /**
   * The digits Python's `int()` accepts in base 10, sign removed: decimal
   * digits, where an underscore may stand between two digits.
   */
  predicate IsDigitGroup(s: string)
  {
    && s != [] && IsDigit(s[0]) && IsDigit(s[|s| - 1])
    && forall i: nat :: i < |s| ==> GroupCharAt(s, i)
  }

  /** Position `i` holds a digit, or an underscore with a digit after it. */
  predicate GroupCharAt(s: string, i: nat)
    requires i < |s|
  {
    IsDigit(s[i]) || (s[i] == '_' && i + 1 < |s| && IsDigit(s[i + 1]))
  }

  /** The number the digits spell, underscores ignored. */
  function DigitsValue(s: string): nat
    decreases |s|
  {
    if s == [] then 0
    else
      var c := s[|s| - 1];
      if IsDigit(c) then DigitsValue(s[..|s| - 1]) * 10 + (c as int - '0' as int)
      else DigitsValue(s[..|s| - 1])
  }

  /**
   * CPython's default cap on the number of digits `int()` converts from a
   * decimal string (`sys.int_info.default_max_str_digits`); a longer string
   * raises `ValueError`.
   */
  const MaxStrDigits := 4300

  /** The digits of the text, its sign and underscores not counted. */
  function DigitCount(s: string): (n: nat)
    ensures n <= |s|
    decreases |s|
  {
    if s == [] then 0
    else DigitCount(s[..|s| - 1]) + (if IsDigit(s[|s| - 1]) then 1 else 0)
  }

  /**
   * `int(text)` on a stripped text: an optional sign, then a digit group of
   * at most `MaxStrDigits` digits; `None` where `int` raises `ValueError`.
   */
  function ParseInt(text: string): (r: Option<int>)
    ensures r.Some? <==>
              || (IsDigitGroup(text) && DigitCount(text) <= MaxStrDigits)
              || (&& text != [] && (text[0] == '+' || text[0] == '-')
                  && IsDigitGroup(text[1..]) && DigitCount(text[1..]) <= MaxStrDigits)
  {
    if text != [] && (text[0] == '+' || text[0] == '-') then
      if IsDigitGroup(text[1..]) && DigitCount(text[1..]) <= MaxStrDigits then
        var magnitude: int := DigitsValue(text[1..]);
        Some(if text[0] == '-' then -magnitude else magnitude)
      else None
    else if IsDigitGroup(text) && DigitCount(text) <= MaxStrDigits then Some(DigitsValue(text))
    else None
  }

  /** In a text of digits alone every character counts. */
  lemma {:induction false} DigitCountOfDigits(s: string)
    requires forall i :: 0 <= i < |s| ==> IsDigit(s[i])
    ensures DigitCount(s) == |s|
    decreases |s|
  {
    if s != [] {
      DigitCountOfDigits(s[..|s| - 1]);
    }
  }

  function DigitChar(d: nat): (c: char)
    requires d < 10
    ensures IsDigit(c) && c as int - '0' as int == d
  {
    ('0' as int + d) as char
  }

  /** `str(n)` for a natural number. */
  function NatToString(n: nat): (s: string)
    ensures s != [] && forall i :: 0 <= i < |s| ==> IsDigit(s[i])
    decreases n
  {
    if n < 10 then [DigitChar(n)] else NatToString(n / 10) + [DigitChar(n % 10)]
  }

  lemma {:induction false} DigitsValueOfNatToString(n: nat)
    ensures DigitsValue(NatToString(n)) == n
    decreases n
  {
    var s := NatToString(n);
    if n >= 10 {
      DigitsValueOfNatToString(n / 10);
      assert s[..|s| - 1] == NatToString(n / 10);
    }
  }

  /** `int(str(n)) == n` and `int('-' + str(n)) == -n`, for a number within the digit cap. */
  lemma ParseIntOfNatToString(n: nat)
    requires |NatToString(n)| <= MaxStrDigits
    ensures ParseInt(NatToString(n)) == Some(n)
    ensures ParseInt("-" + NatToString(n)) == Some(-(n as int))
  {
    DigitsValueOfNatToString(n);
    var s := NatToString(n);
    DigitCountOfDigits(s);
    assert forall i: nat :: i < |s| ==> GroupCharAt(s, i);
    assert ("-" + s)[1..] == s;
  }

  /** A text holding anything but digits, underscores and a sign is not a number: `int` raises. */
  lemma ParseIntRejects(text: string, i: nat)
    requires i < |text| && !IsDigit(text[i]) && text[i] != '_' && text[i] != '+' && text[i] != '-'
    ensures ParseInt(text) == None
  {
    if text != [] && (text[0] == '+' || text[0] == '-') {
      var digits := text[1..];
      assert i > 0 && digits[i - 1] == text[i];
      assert !GroupCharAt(digits, i - 1);
    } else {
      assert !GroupCharAt(text, i);
    }
  }

  /** What one line does: go on with an updated result, or stop because `int()` raised. */
  datatype Step = Continue(analysis: Analysis) | Stop

  /** The sentiment a `SENTIMENT:` value names; only the two directional ones are taken. */
  function NamedSentiment(value: string): Option<Sentiment>
  {
    if value == "BULLISH" then Some(Bullish)
    else if value == "BEARISH" then Some(Bearish)
    else None
  }

  /**
   * One line of the reply. A `RATING:` line sets the importance to the
   * integer after the tag (every occurrence of the tag removed, then
   * stripped), or stops the parse when that is no integer. A `SENTIMENT:`
   * line sets the sentiment when the upper-cased value is `BULLISH` or
   * `BEARISH`. Any other line changes nothing.
   */
  function ParseLine(line: string, a: Analysis): Step
  {
    if StartsWith(line, "RATING:") then
      match ParseInt(Strip(ReplaceAll(line, "RATING:", "")))
      case None => Stop
      case Some(n) => Continue(a.(importance := n))
    else if StartsWith(line, "SENTIMENT:") then
      match NamedSentiment(Upper(Strip(ReplaceAll(line, "SENTIMENT:", ""))))
      case None => Continue(a)
      case Some(s) => Continue(a.(sentiment := s))
    else Continue(a)
  }

  /** The result after the lines, and whether the parse was cut short by a bad rating. */
  datatype ParseState = ParseState(analysis: Analysis, stopped: bool)

  function ParseLines(lines: seq<string>, a: Analysis): ParseState
    decreases |lines|
  {
    if lines == [] then ParseState(a, false)
    else match ParseLine(lines[0], a)
      case Stop => ParseState(a, true)
      case Continue(b) => ParseLines(lines[1..], b)
  }

  /**
   * `_parse_llm_response(response)`: the stripped reply split at newlines.
   * A reply that is no string (`None`) makes `strip` raise, which is caught:
   * the defaults are returned.
   */
  function ParseReply(response: Option<string>): Analysis
  {
    match response
    case None => Defaults
    case Some(text) => ParseLines(Split(Strip(text), '\n'), Defaults).analysis
  }

  /** The loop of `_parse_llm_response`, leaving it at the first rating that is no integer. */
  method ParseLlmResponse(response: Option<string>) returns (result: Analysis)
    ensures result == ParseReply(response)
  {
    result := Defaults;
    if response.None? {
      return;
    }
    var lines := Split(Strip(response.value), '\n');
    var i := 0;
    while i < |lines|
      invariant 0 <= i <= |lines|
      invariant ParseLines(lines, Defaults) == ParseLines(lines[i..], result)
    {
      var line := lines[i];
      assert lines[i..][0] == line && lines[i..][1..] == lines[i + 1..];
      if StartsWith(line, "RATING:") {
        var rating := ParseInt(Strip(ReplaceAll(line, "RATING:", "")));
        if rating.None? {
          break;
        }
        result := result.(importance := rating.value);
      } else if StartsWith(line, "SENTIMENT:") {
        var sentiment := Upper(Strip(ReplaceAll(line, "SENTIMENT:", "")));
        if sentiment == "BULLISH" {
          result := result.(sentiment := Bullish);
        } else if sentiment == "BEARISH" {
          result := result.(sentiment := Bearish);
        }
      }
      i := i + 1;
    }
  }

  /** Parsing runs through the lines in order: a parse cut short ignores whatever follows. */
  lemma {:induction false} ParseLinesAppend(x: seq<string>, y: seq<string>, a: Analysis)
    ensures ParseLines(x + y, a) ==
            if ParseLines(x, a).stopped then ParseLines(x, a)
            else ParseLines(y, ParseLines(x, a).analysis)
    decreases |x|
  {
    if x == [] {
      assert x + y == y;
    } else {
      assert (x + y)[0] == x[0] && (x + y)[1..] == x[1..] + y;
      match ParseLine(x[0], a)
      case Stop =>
      case Continue(b) => ParseLinesAppend(x[1..], y, b);
    }
  }

  /** Lines without either tag leave the result at what it was. */
  lemma {:induction false} UntaggedLinesKeep(lines: seq<string>, a: Analysis)
    requires forall i :: 0 <= i < |lines| ==> !StartsWith(lines[i], "RATING:") && !StartsWith(lines[i], "SENTIMENT:")
    ensures ParseLines(lines, a) == ParseState(a, false)
    decreases |lines|
  {
    if lines != [] {
      assert forall i :: 0 <= i < |lines[1..]| ==> lines[1..][i] == lines[i + 1];
      UntaggedLinesKeep(lines[1..], a);
    }
  }

  /** A reply with no tagged line, or no reply at all, yields the defaults. */
  lemma UntaggedReplyGivesDefaults(text: string)
    requires forall i :: 0 <= i < |Split(Strip(text), '\n')| ==>
               !StartsWith(Split(Strip(text), '\n')[i], "RATING:")
               && !StartsWith(Split(Strip(text), '\n')[i], "SENTIMENT:")
    ensures ParseReply(Some(text)) == Defaults
    ensures ParseReply(None) == Defaults
  {
    UntaggedLinesKeep(Split(Strip(text), '\n'), Defaults);
  }

  /** A line that starts with `tag`, followed by text lacking the tag's last character, loses exactly the tag. */
  lemma TagRemoved(tag: string, rest: string)
    requires tag != [] && tag[|tag| - 1] !in rest
    ensures StartsWith(tag + rest, tag)
    ensures ReplaceAll(tag + rest, tag, "") == rest
  {
    assert (tag + rest)[..|tag|] == tag;
    NotContainsChar(rest, tag, |tag| - 1);
    ReplaceAllAbsent(rest, tag, "");
    ReplaceAllLeading(tag, rest, "");
    assert "" + rest == rest;
  }

  /** One space before a value is stripped away. */
  lemma SpacedValue(value: string)
    requires value != [] ==> !IsSpace(value[0]) && !IsSpace(value[|value| - 1])
    ensures Strip(" " + value) == value
  {
    assert " " + value == [' '] + value;
    StripLeadingSpace(' ', value);
    StripNoEdgeSpace(value);
  }

  /** `RATING: n` sets the importance to `n` and leaves the sentiment. */
  lemma RatingLineSets(n: nat, a: Analysis)
    requires |NatToString(n)| <= MaxStrDigits
    ensures ParseLine("RATING:" + " " + NatToString(n), a) == Continue(a.(importance := n))
  {
    var digits := NatToString(n);
    var rest := " " + digits;
    assert "RATING:" + " " + digits == "RATING:" + rest;
    assert ':' !in rest by {
      forall i | 0 <= i < |rest| ensures rest[i] != ':' {
        if i > 0 { assert IsDigit(digits[i - 1]); }
      }
    }
    TagRemoved("RATING:", rest);
    SpacedValue(digits);
    ParseIntOfNatToString(n);
  }

  /** A rating of more than `MaxStrDigits` digits makes `int()` raise: the parse stops there. */
  lemma OverlongRatingStops(digits: string, a: Analysis)
    requires AllDigits(digits)
    requires |digits| > MaxStrDigits
    ensures ParseLine("RATING:" + " " + digits, a) == Stop
  {
    RatingValue(digits);
    OverlongRefused(digits);
  }

  /** `int()` refuses a digit string longer than the cap. */
  lemma OverlongRefused(digits: string)
    requires AllDigits(digits)
    requires |digits| > MaxStrDigits
    ensures ParseInt(digits) == None
  {
    DigitCountOfDigits(digits);
    assert IsDigit(digits[0]);
  }

  /** The value of `RATING: digits`, once the tag is removed and the rest stripped, is the digits. */
  lemma RatingValue(digits: string)
    requires AllDigits(digits)
    requires digits != []
    ensures StartsWith("RATING:" + " " + digits, "RATING:")
    ensures Strip(ReplaceAll("RATING:" + " " + digits, "RATING:", "")) == digits
  {
    var rest := " " + digits;
    assert "RATING:" + " " + digits == "RATING:" + rest;
    SpacedDigits(digits);
    TagRemoved("RATING:", rest);
  }

  /** Digits behind one space: no `:` among them, and stripping gives the digits back. */
  lemma SpacedDigits(digits: string)
    requires AllDigits(digits)
    requires digits != []
    ensures ':' !in " " + digits
    ensures Strip(" " + digits) == digits
  {
    var rest := " " + digits;
    forall i | 0 <= i < |rest| ensures rest[i] != ':' {
      if i > 0 { assert IsDigit(digits[i - 1]); }
    }
    assert IsDigit(digits[0]) && IsDigit(digits[|digits| - 1]);
    SpacedValue(digits);
  }

  /** `SENTIMENT: word` sets the sentiment `word` names once upper-cased, and otherwise changes nothing. */
  lemma SentimentLine(word: string, a: Analysis)
    requires ':' !in word && word != [] && !IsSpace(word[0]) && !IsSpace(word[|word| - 1])
    ensures ParseLine("SENTIMENT:" + " " + word, a) ==
            match NamedSentiment(Upper(word))
            case None => Continue(a)
            case Some(s) => Continue(a.(sentiment := s))
  {
    var rest := " " + word;
    assert "SENTIMENT:" + " " + word == "SENTIMENT:" + rest;
    assert ':' !in rest;
    TagRemoved("SENTIMENT:", rest);
    assert !StartsWith("SENTIMENT:" + rest, "RATING:") by {
      assert ("SENTIMENT:" + rest)[0] == 'S';
    }
    SpacedValue(word);
  }

  /** A later `RATING:` line overrides whatever earlier lines set, unless the parse stopped before it. */
  lemma LaterRatingOverrides(x: seq<string>, n: nat, a: Analysis)
    requires !ParseLines(x, a).stopped
    requires |NatToString(n)| <= MaxStrDigits
    ensures ParseLines(x + ["RATING:" + " " + NatToString(n)], a).analysis ==
            ParseLines(x, a).analysis.(importance := n)
  {
    var line := "RATING:" + " " + NatToString(n);
    ParseLinesAppend(x, [line], a);
    RatingLineSets(n, ParseLines(x, a).analysis);
    assert [line][1..] == [];
  }

  /**
   * A `RATING:` line whose value is no integer stops the parse: the values
   * set so far are returned and the lines after it are ignored.
   */
  lemma BadRatingStops(x: seq<string>, bad: string, y: seq<string>, a: Analysis)
    requires StartsWith(bad, "RATING:") && ParseInt(Strip(ReplaceAll(bad, "RATING:", ""))) == None
    requires !ParseLines(x, a).stopped
    ensures ParseLines(x + [bad] + y, a) == ParseState(ParseLines(x, a).analysis, true)
  {
    ParseLinesAppend(x + [bad], y, a);
    ParseLinesAppend(x, [bad], a);
  }

  lemma UpperBullish()
    ensures Upper("bullish") == "BULLISH" && Upper("BULLISH") == "BULLISH"
  {
  }

  lemma UpperBearish()
    ensures Upper("Bearish") == "BEARISH"
  {
  }

  lemma UpperNeutral()
    ensures Upper("NEUTRAL") == "NEUTRAL"
  {
  }

  /** `SENTIMENT:` is taken whatever its case. */
  lemma LowercaseBullish(a: Analysis)
    ensures ParseLine("SENTIMENT:" + " " + "bullish", a) == Continue(a.(sentiment := Bullish))
  {
    UpperBullish();
    SentimentLine("bullish", a);
  }

  lemma MixedCaseBearish(a: Analysis)
    ensures ParseLine("SENTIMENT:" + " " + "Bearish", a) == Continue(a.(sentiment := Bearish))
  {
    UpperBearish();
    SentimentLine("Bearish", a);
  }

  /** A sentiment other than bullish or bearish changes nothing. */
  lemma NeutralIgnored(a: Analysis)
    ensures ParseLine("SENTIMENT:" + " " + "NEUTRAL", a) == Continue(a)
  {
    UpperNeutral();
    SentimentLine("NEUTRAL", a);
  }

  lemma EightDigits()
    ensures NatToString(8) == "8"
  {
  }

  /** The two lines of the analyzer's test reply. */
  const SampleRating := "RATING:" + " " + "8"
  const SampleSentiment := "SENTIMENT:" + " " + "BULLISH"

  /** The reply of the analyzer's test, `RATING: 8` then `SENTIMENT: BULLISH`: importance 8, bullish. */
  lemma SampleReply()
    ensures ParseReply(Some(SampleRating + "\n" + SampleSentiment)) == Analysis(8, Bullish)
  {
    SampleLines();
    SampleRatingLine();
    SampleSentimentLine();
    TwoLines(SampleRating, SampleSentiment, Defaults);
  }

  lemma SampleRatingLine()
    ensures ParseLine(SampleRating, Defaults) == Continue(Analysis(8, Neutral))
  {
    EightDigits();
    RatingLineSets(8, Defaults);
  }

  lemma SampleSentimentLine()
    ensures ParseLine(SampleSentiment, Analysis(8, Neutral)) == Continue(Analysis(8, Bullish))
  {
    UpperBullish();
    SentimentLine("BULLISH", Analysis(8, Neutral));
  }

  lemma TwoLines(first: string, second: string, a: Analysis)
    requires ParseLine(first, a).Continue?
    ensures ParseLines([first, second], a) == ParseLines([second], ParseLine(first, a).analysis)
  {
    assert [first, second][1..] == [second];
  }

  lemma SampleLines()
    ensures Split(Strip(SampleRating + "\n" + SampleSentiment), '\n') == [SampleRating, SampleSentiment]
  {
    var text := SampleRating + "\n" + SampleSentiment;
    assert text[0] == 'R' && text[|text| - 1] == 'H';
    StripNoEdgeSpace(text);
    assert '\n' !in SampleRating && '\n' !in SampleSentiment;
    assert text == SampleRating + ['\n'] + SampleSentiment;
    SplitAtSep(SampleRating, SampleSentiment, '\n');
    SplitNoSep(SampleSentiment, '\n');
  }
}
