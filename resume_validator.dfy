/** The server's check that submitted text looks like a resume before any
    AI call is made (`validate_resume_content`). */
module ResumeValidator {
  import opened Strings
  import opened Collections

  /** The keywords whose presence marks a resume. The source holds them in a
      set, so their order is immaterial; listed here by length and first two
      letters, which shows each is listed once (`ResumeKeywordsDistinct`), so
      a count over the list is a count of distinct keywords. */
  const ResumeKeywords: seq<string> := [
    "job", "work", "tools", "degree", "expert", "skills",
    "college", "project", "summary", "education", "languages", "objective", "technical",
    "background", "employment", "experience", "university", "achievement", "proficiency",
    "professional", "technologies", "certification", "qualifications", "responsibility",
    "core competencies"
  ]

  const MinLength := 200
  const MinKeywords := 3
  const MinLines := 5

  /** The validator's messages, one per outcome. */
  datatype Message = TooShort | NotAResume | Incomplete | LittleContent | ValidResume {
    /** The text the server sends back (as the 400 detail on rejection). */
    function Text(): string {
      match this
      case TooShort => "Text is too short to be a resume. Please upload a valid resume."
      case NotAResume => "This doesn't appear to be a resume. Please upload a valid resume with sections like Experience, Education, or Skills."
      case Incomplete => "Resume appears incomplete or improperly formatted. Please upload a valid resume."
      case LittleContent => "Resume appears to have very little content. Please upload a valid resume with substantial information."
      case ValidResume => "Valid resume"
    }
  }

  /** No keyword is listed twice. */
  predicate Distinct(keywords: seq<string>) {
    forall i, j :: 0 <= i < j < |keywords| ==> keywords[i] != keywords[j]
  }

  /** A sort key made of the length and the first two characters. */
  function Key(s: string): int {
    if |s| < 2 then |s| else |s| * 0x1_0000_0000 + (s[0] as int) * 0x1_0000 + s[1] as int
  }

  predicate KeysIncrease(s: seq<string>) {
    forall i :: 0 <= i < |s| - 1 ==> Key(s[i]) < Key(s[i + 1])
  }

  /** Keys that increase from each element to the next increase throughout,
      so no element is listed twice. */
  lemma {:induction false} KeysIncreaseDistinct(s: seq<string>)
    requires KeysIncrease(s)
    ensures forall i, j :: 0 <= i < j < |s| ==> Key(s[i]) < Key(s[j])
    ensures Distinct(s)
  {
    if |s| > 1 {
      var t := s[1..];
      assert KeysIncrease(t) by {
        forall i | 0 <= i < |t| - 1 ensures Key(t[i]) < Key(t[i + 1]) {
          assert t[i] == s[i + 1] && t[i + 1] == s[i + 2];
        }
      }
      KeysIncreaseDistinct(t);
      forall i, j | 0 <= i < j < |s| ensures Key(s[i]) < Key(s[j]) {
        assert s[j] == t[j - 1];
        if i > 0 {
          assert s[i] == t[i - 1];
        } else if j > 1 {
          assert s[1] == t[0];
        }
      }
    }
  }

  lemma ResumeKeywordsDistinct()
    ensures Distinct(ResumeKeywords)
  {
    assert KeysIncrease(ResumeKeywords);
    KeysIncreaseDistinct(ResumeKeywords);
  }

  /** The keywords that occur in `lowered`. */
  function Found(keywords: seq<string>, lowered: string): set<string> {
    set k | k in keywords && Contains(lowered, k)
  }

  /** The keywords found in a list are those of its head and of its tail. */
  lemma FoundCons(keywords: seq<string>, lowered: string)
    requires keywords != []
    ensures Found(keywords, lowered) ==
      (if Contains(lowered, keywords[0]) then {keywords[0]} else {}) + Found(keywords[1..], lowered)
  {
    assert forall k :: k in keywords <==> k == keywords[0] || k in keywords[1..];
  }

  /** How many of `keywords` occur as substrings of `lowered`. */
  function KeywordHits(keywords: seq<string>, lowered: string): (n: nat)
    ensures n <= |keywords|
  {
    if keywords == [] then 0
    else (if Contains(lowered, keywords[0]) then 1 else 0) + KeywordHits(keywords[1..], lowered)
  }

  /** For a list without repetitions, the count is the number of distinct
      keywords found, as the source's sum over a set counts them. */
  lemma {:induction false} KeywordHitsCountsFound(keywords: seq<string>, lowered: string)
    requires Distinct(keywords)
    ensures KeywordHits(keywords, lowered) == |Found(keywords, lowered)|
  {
    if keywords != [] {
      FoundCons(keywords, lowered);
      assert Distinct(keywords[1..]) by {
        forall i, j | 0 <= i < j < |keywords| - 1 ensures keywords[1..][i] != keywords[1..][j] {
          assert keywords[1..][i] == keywords[i + 1] && keywords[1..][j] == keywords[j + 1];
        }
      }
      assert keywords[0] !in Found(keywords[1..], lowered);
      KeywordHitsCountsFound(keywords[1..], lowered);
    }
  }

  /** The validator's keyword score is the number of distinct resume
      keywords found in the lower-cased text. */
  lemma ResumeKeywordHits(lowered: string)
    ensures KeywordHits(ResumeKeywords, lowered) == |Found(ResumeKeywords, lowered)|
  {
    ResumeKeywordsDistinct();
    KeywordHitsCountsFound(ResumeKeywords, lowered);
  }

  /** The resume test: a line is counted when `strip()` leaves something. */
  function NonBlank(): string -> bool { (l: string) => PyStrip(l) != [] }

  /** The number of lines that are not blank after `strip()`. */
  function CountNonBlank(lines: seq<string>): (n: nat)
    ensures n <= |lines|
  {
    if lines == [] then 0
    else (if PyStrip(lines[0]) != [] then 1 else 0) + CountNonBlank(lines[1..])
  }

  /** The count is the length of `[line for line in lines if line.strip()]`. */
  lemma {:induction false} CountNonBlankCountsFilter(lines: seq<string>)
    ensures CountNonBlank(lines) == |Filter(lines, NonBlank())|
  {
    if lines != [] {
      CountNonBlankCountsFilter(lines[1..]);
    }
  }

  /** One of the validator's checks: whether the text passes it, and the
      message returned when it does not. */
  datatype Check = Check(passes: bool, message: Message)

  /** The four checks, in the order the validator runs them; the condition
      behind each message is `ValidationMessages`. */
  function Checks(text: string): (cs: seq<Check>)
    ensures |cs| == 4
  {
    var stripped := PyStrip(text);
    var lines := Split(stripped, '\n');
    [ Check(|stripped| >= MinLength, TooShort),
      Check(KeywordHits(ResumeKeywords, Lower(text)) >= MinKeywords, NotAResume),
      Check(|lines| >= MinLines, Incomplete),
      Check(CountNonBlank(lines) >= MinLines, LittleContent) ]
  }

  /** The outcome of running `cs` in order: `(True, "Valid resume")` when
      every check passes, otherwise `False` with the message of the first
      check that fails. */
  function FirstFailure(cs: seq<Check>): (r: (bool, Message))
    ensures r.0 <==> forall i :: 0 <= i < |cs| ==> cs[i].passes
    ensures r.0 ==> r.1 == ValidResume
    ensures !r.0 ==> exists i :: 0 <= i < |cs| && !cs[i].passes && r.1 == cs[i].message
                                 && forall j :: 0 <= j < i ==> cs[j].passes
  {
    if cs == [] then (true, ValidResume)
    else if !cs[0].passes then (false, cs[0].message)
    else
      var r := FirstFailure(cs[1..]);
      assert !r.0 ==> exists i :: 1 <= i < |cs| && !cs[i].passes && r.1 == cs[i].message
                                 && forall j :: 0 <= j < i ==> cs[j].passes by {
        if !r.0 {
          var i :| 0 <= i < |cs| - 1 && !cs[1..][i].passes && r.1 == cs[1..][i].message
                   && forall j :: 0 <= j < i ==> cs[1..][j].passes;
          assert forall j :: 1 <= j < i + 1 ==> cs[j] == cs[1..][j - 1];
        }
      }
      r
  }

  /** `validate_resume_content(text)`: the checks of `Checks`, run in order. */
  function ValidateResumeContent(text: string): (bool, Message) {
    FirstFailure(Checks(text))
  }

  /** Four checks pass together exactly when each of them passes. */
  lemma FirstFailureOfFour(cs: seq<Check>)
    requires |cs| == 4
    ensures FirstFailure(cs).0 <==> cs[0].passes && cs[1].passes && cs[2].passes && cs[3].passes
  {
  }

  /** Four checks, each with a rejection message of its own, run in order:
      each message is given exactly when its check is the first to fail. */
  lemma FirstFailureOfFourMessages(p0: bool, p1: bool, p2: bool, p3: bool)
    ensures var r := FirstFailure([Check(p0, TooShort), Check(p1, NotAResume), Check(p2, Incomplete), Check(p3, LittleContent)]);
      && (r.1 == TooShort <==> !p0)
      && (r.1 == NotAResume <==> p0 && !p1)
      && (r.1 == Incomplete <==> p0 && p1 && !p2)
      && (r.1 == LittleContent <==> p0 && p1 && p2 && !p3)
      && (r.1 == ValidResume <==> r.0)
  {
    var cs := [Check(p0, TooShort), Check(p1, NotAResume), Check(p2, Incomplete), Check(p3, LittleContent)];
    assert cs[1..][1..] == cs[2..] && cs[2..][1..] == cs[3..] && cs[3..][1..] == [];
    assert FirstFailure(cs[3..]) == if p3 then (true, ValidResume) else (false, LittleContent);
    assert FirstFailure(cs[2..]) == if p2 then FirstFailure(cs[3..]) else (false, Incomplete);
    assert FirstFailure(cs[1..]) == if p1 then FirstFailure(cs[2..]) else (false, NotAResume);
  }

  /** The condition under which the validator gives each of its messages. */
  lemma ValidationMessages(text: string)
    ensures var stripped := PyStrip(text);
      var hits := KeywordHits(ResumeKeywords, Lower(text));
      var lines := Split(stripped, '\n');
      var m := ValidateResumeContent(text).1;
      && (m == TooShort <==> |stripped| < MinLength)
      && (m == NotAResume <==> |stripped| >= MinLength && hits < MinKeywords)
      && (m == Incomplete <==> |stripped| >= MinLength && hits >= MinKeywords && |lines| < MinLines)
      && (m == LittleContent <==>
            |stripped| >= MinLength && hits >= MinKeywords && |lines| >= MinLines
            && CountNonBlank(lines) < MinLines)
      && (m == ValidResume <==> ValidateResumeContent(text).0)
  {
    var stripped := PyStrip(text);
    var lines := Split(stripped, '\n');
    FirstFailureOfFourMessages(|stripped| >= MinLength, KeywordHits(ResumeKeywords, Lower(text)) >= MinKeywords,
                               |lines| >= MinLines, CountNonBlank(lines) >= MinLines);
  }

  /** The line-count check never decides acceptance on its own: a text with
      five non-blank lines has five lines, so only its message can differ. */
  lemma AcceptanceIgnoresLineCount(text: string)
    ensures var stripped := PyStrip(text);
      ValidateResumeContent(text).0 <==>
        && |stripped| >= MinLength
        && KeywordHits(ResumeKeywords, Lower(text)) >= MinKeywords
        && CountNonBlank(Split(stripped, '\n')) >= MinLines
  {
    FirstFailureOfFour(Checks(text));
    var lines := Split(PyStrip(text), '\n');
    assert CountNonBlank(lines) <= |lines|;
  }

  // ---------------------------------------------------------------------
  // The verdict does not depend on ASCII letter case.

  /** Lower-casing keeps white space and the line separator where they are. */
  lemma LowerCharKeepsSpace(c: char)
    ensures IsPySpace(LowerChar(c)) == IsPySpace(c)
    ensures (LowerChar(c) == '\n') == (c == '\n')
    ensures LowerChar(LowerChar(c)) == LowerChar(c)
  {
  }

  /** `lower()` commutes with trimming the start. */
  lemma {:induction false} LowerTrimStart(s: string)
    ensures TrimStart(Lower(s), IsPySpace) == Lower(TrimStart(s, IsPySpace))
    decreases |s|
  {
    if |s| > 0 {
      var l := Lower(s);
      assert l[0] == LowerChar(s[0]) && l[1..] == Lower(s[1..]);
      LowerCharKeepsSpace(s[0]);
      if IsPySpace(s[0]) {
        LowerTrimStart(s[1..]);
      }
    }
  }

  /** Dropping the last character before or after lower-casing. */
  lemma LowerInit(s: string)
    requires |s| > 0
    ensures Lower(s[..|s| - 1]) == Lower(s)[..|s| - 1]
  {

  }

  /** `lower()` commutes with trimming the end. */
  lemma {:induction false} LowerTrimEnd(s: string)
    ensures TrimEnd(Lower(s), IsPySpace) == Lower(TrimEnd(s, IsPySpace))
    decreases |s|
  {
    if |s| > 0 {
      var l := Lower(s);
      LowerInit(s);
      assert l[|s| - 1] == LowerChar(s[|s| - 1]);
      LowerCharKeepsSpace(s[|s| - 1]);
      if IsPySpace(s[|s| - 1]) {
        LowerTrimEnd(s[..|s| - 1]);
      }
    }
  }

  /** `s.lower().strip() == s.strip().lower()`. */
  lemma LowerStrip(s: string)
    ensures PyStrip(Lower(s)) == Lower(PyStrip(s))
  {
    LowerTrimStart(s);
    LowerTrimEnd(TrimStart(s, IsPySpace));
  }

  /** Every piece lower-cased. */
  function LowerAll(parts: seq<string>): (r: seq<string>)
    ensures |r| == |parts|
    ensures forall k :: 0 <= k < |parts| ==> r[k] == Lower(parts[k])
  {
    if parts == [] then [] else [Lower(parts[0])] + LowerAll(parts[1..])
  }

  /** Splitting the lower-cased text gives the lower-cased lines. */
  lemma {:induction false} SplitLower(s: string)
    ensures Split(Lower(s), '\n') == LowerAll(Split(s, '\n'))
    decreases |s|
  {
    if s != [] {
      var rest := Split(s[1..], '\n');
      SplitLower(s[1..]);
      LowerCharKeepsSpace(s[0]);
      assert Lower(s)[1..] == Lower(s[1..]);
      if s[0] != '\n' {
        assert Lower([s[0]] + rest[0]) == [LowerChar(s[0])] + Lower(rest[0]);
        assert LowerAll(rest)[1..] == LowerAll(rest[1..]);
      }
    }
  }

  /** Lower-casing a line does not change whether it is blank. */
  lemma {:induction false} CountNonBlankLower(lines: seq<string>)
    ensures CountNonBlank(LowerAll(lines)) == CountNonBlank(lines)
  {
    if lines != [] {
      LowerStrip(lines[0]);
      CountNonBlankLower(lines[1..]);
      assert LowerAll(lines)[1..] == LowerAll(lines[1..]);
    }
  }

  /** Lower-casing twice is lower-casing once. */
  lemma LowerIdempotent(s: string)
    ensures Lower(Lower(s)) == Lower(s)
  {
    forall k | 0 <= k < |s| ensures Lower(Lower(s))[k] == Lower(s)[k] {
      LowerCharKeepsSpace(s[k]);
    }
  }

  /** The validator gives the same verdict and message for a text and its
      lower-cased form: keyword matching is case-insensitive and case never
      affects length, lines or blankness. */
  lemma ValidateIgnoresCase(text: string)
    ensures ValidateResumeContent(Lower(text)) == ValidateResumeContent(text)
  {
    ChecksIgnoreCase(text);
  }

  /** Each check sees the same measurements in a text and its lower-cased form. */
  lemma ChecksIgnoreCase(text: string)
    ensures Checks(Lower(text)) == Checks(text)
  {
    var lowered := Lower(text);
    LowerIdempotent(text);
    LowerStrip(text);
    var lines := Split(PyStrip(text), '\n');
    SplitLower(PyStrip(text));
    CountNonBlankLower(lines);
    assert Split(PyStrip(lowered), '\n') == LowerAll(lines);
  }
}
