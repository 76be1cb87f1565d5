/** The text of a formatted time, as stored in a route: each kept segment
    appended as "<count> <unit> " (the seconds segment without the trailing
    space), then trimmed. A parser reads the text back into segments. */
module DurationText {
  import opened Numbers
  import opened Duration

  predicate IsDigit(c: char) {
    '0' <= c <= '9'
  }

  predicate AllDigits(s: string) {
    forall i | 0 <= i < |s| :: IsDigit(s[i])
  }

  /** The characters `String.prototype.trim` removes that can matter here:
      space, the ASCII control whitespace, no-break space and the byte-order
      mark. */
  predicate IsSpace(c: char) {
    c == ' ' || c == '\t' || c == '\n' || c == '\r' || c == '\U{000B}' || c == '\U{000C}'
    || c == '\U{00A0}' || c == '\U{FEFF}'
  }

  /** A word: non-empty and free of whitespace. */
  predicate IsWord(w: string) {
    |w| > 0 && forall i | 0 <= i < |w| :: !IsSpace(w[i])
  }

  function DigitChar(d: nat): char
    requires d < 10
  {
    ('0' as int + d) as char
  }

  function DigitValue(c: char): nat
    requires IsDigit(c)
  {
    c as int - '0' as int
  }

  /** The decimal numeral JavaScript prints for a natural number up to
      2^53, in canonical form: no leading zero except for zero itself.
      Above 2^53 JavaScript may print a rounded numeral padded with zeros,
      and from 10^21 on it switches to exponent form. */
  function Decimal(n: nat): (s: string)
    ensures |s| > 0 && AllDigits(s)
    ensures s[0] == '0' <==> n == 0
    ensures n == 0 ==> s == "0"
  {
    if n < 10 then [DigitChar(n)] else Decimal(n / 10) + [DigitChar(n % 10)]
  }

  /** The value of a string of decimal digits. */
  function DecimalValue(s: string): nat
    requires AllDigits(s)
  {
    if |s| == 0 then 0 else 10 * DecimalValue(s[..|s| - 1]) + DigitValue(s[|s| - 1])
  }

  lemma {:induction false} DecimalRoundTrip(n: nat)
    ensures DecimalValue(Decimal(n)) == n
  {
    if n >= 10 {
      var s := Decimal(n);
      assert s[..|s| - 1] == Decimal(n / 10);
      DecimalRoundTrip(n / 10);
    }
  }

  /** How a count is printed: a minus sign for a negative whole number, and
      "NaN" for NaN. The text is one word, and it reads back as the count. */
  function CountText(c: Count): (w: string)
    ensures IsWord(w)
    ensures ParseCount(w) == Some(c)
  {
    match c
    case NotANumber => "NaN"
    case Whole(n) =>
      if n < 0 then NegativeText(-n); "-" + Decimal(-n)
      else NaturalText(n); Decimal(n)
  }

  lemma NegativeText(n: nat)
    ensures IsWord("-" + Decimal(n))
    ensures ParseCount("-" + Decimal(n)) == Some(Whole(-(n as int)))
  {
    var w := "-" + Decimal(n);
    assert w[1..] == Decimal(n);
    assert w != "NaN" by { assert w[0] != "NaN"[0]; }
    DecimalRoundTrip(n);
  }

  lemma NaturalText(n: nat)
    ensures IsWord(Decimal(n))
    ensures ParseCount(Decimal(n)) == Some(Whole(n))
  {
    var w := Decimal(n);
    assert w != "NaN" by { assert IsDigit(w[0]); }
    DecimalRoundTrip(n);
  }

  function UnitWord(u: Unit): string {
    match u
    case HoursUnit => "hours"
    case MinutesUnit => "minutes"
    case SecondsUnit => "seconds"
  }

  /** What one segment appends to the text. */
  function Piece(s: Segment): string {
    CountText(s.count) + " " + UnitWord(s.unit) + (if s.unit == SecondsUnit then "" else " ")
  }

  /** The text before trimming: the pieces of the kept segments in order. */
  function Accumulate(segs: seq<Segment>): string {
    if |segs| == 0 then "" else Piece(segs[0]) + Accumulate(segs[1..])
  }

  predicate AllSpace(s: string) {
    forall i | 0 <= i < |s| :: IsSpace(s[i])
  }

  /** How many whitespace characters the text starts with. */
  function LeadingSpaces(s: string): (k: nat)
    ensures k <= |s| && AllSpace(s[..k])
    ensures k < |s| ==> !IsSpace(s[k])
  {
    if |s| > 0 && IsSpace(s[0]) then
      var k := 1 + LeadingSpaces(s[1..]);
      assert forall i | 1 <= i < k :: s[..k][i] == s[1..][..k - 1][i - 1];
      k
    else 0
  }

  /** Where the trailing whitespace of the text begins. */
  function TrailingStart(s: string): (k: nat)
    ensures k <= |s| && AllSpace(s[k..])
    ensures k > 0 ==> !IsSpace(s[k - 1])
  {
    if |s| > 0 && IsSpace(s[|s| - 1]) then
      var k := TrailingStart(s[..|s| - 1]);
      assert forall i | 0 <= i < |s| - 1 - k :: s[k..][i] == s[..|s| - 1][k..][i];
      k
    else |s|
  }

  /** `trim`: the text with its leading and trailing whitespace removed. The
      result neither starts nor ends with whitespace, and it is the text's
      own middle with only whitespace on either side. */
  function Trim(s: string): (r: string)
    ensures |r| > 0 ==> !IsSpace(r[0]) && !IsSpace(r[|r| - 1])
    ensures exists i | 0 <= i <= |s| - |r| ::
      && s[i..i + |r|] == r
      && AllSpace(s[..i])
      && AllSpace(s[i + |r|..])
  {
    var a := LeadingSpaces(s);
    var m := s[a..];
    var b := TrailingStart(m);
    assert m[b..] == s[a + b..];
    assert m[..b] == s[a..a + b];
    m[..b]
  }

  /** The stored text of a travel time given in minutes. It reads back as
      exactly the formatted segments. */
  function TimeText(t: Num): (text: string)
    ensures ParseTime(text) == Some(FormatTime(t))
  {
    TrimmedTextRoundTrip(FormatTime(t));
    Trim(Accumulate(FormatTime(t)))
  }

  // Reading the text back.

  /** Splits at every space, as `split(" ")` does: n spaces give n + 1 parts. */
  function SplitSpaces(s: string): (parts: seq<string>)
    ensures |parts| >= 1
  {
    if |s| == 0 then [""]
    else if s[0] == ' ' then [""] + SplitSpaces(s[1..])
    else
      var rest := SplitSpaces(s[1..]);
      [[s[0]] + rest[0]] + rest[1..]
  }

  function ParseCount(w: string): Option<Count> {
    if w == "NaN" then Some(NotANumber)
    else if |w| >= 2 && w[0] == '-' && AllDigits(w[1..]) then Some(Whole(-(DecimalValue(w[1..]) as int)))
    else if |w| >= 1 && AllDigits(w) then Some(Whole(DecimalValue(w)))
    else None
  }

  function ParseUnit(w: string): Option<Unit> {
    if w == "hours" then Some(HoursUnit)
    else if w == "minutes" then Some(MinutesUnit)
    else if w == "seconds" then Some(SecondsUnit)
    else None
  }

  /** Reads alternating count and unit words. */
  function ParsePairs(ws: seq<string>): Option<seq<Segment>> {
    if |ws| == 0 then Some([])
    else if |ws| == 1 then None
    else
      match (ParseCount(ws[0]), ParseUnit(ws[1]), ParsePairs(ws[2..]))
      case (Some(c), Some(u), Some(rest)) => Some([Segment(c, u)] + rest)
      case _ => None
  }

  function ParseTime(s: string): Option<seq<Segment>> {
    ParsePairs(SplitSpaces(s))
  }

  // The text as words.

  function Words(segs: seq<Segment>): seq<string> {
    if |segs| == 0 then [] else [CountText(segs[0].count), UnitWord(segs[0].unit)] + Words(segs[1..])
  }

  /** Words separated by single spaces. */
  function Join(ws: seq<string>): string
    requires |ws| > 0
  {
    if |ws| == 1 then ws[0] else ws[0] + " " + Join(ws[1..])
  }

  /** The pieces of a well-shaped segment list are its words joined by
      single spaces. */
  lemma {:induction false} AccumulateIsJoin(segs: seq<Segment>)
    requires SecondsLast(segs)
    ensures |Words(segs)| > 0
    ensures Accumulate(segs) == Join(Words(segs))
  {
    if |segs| == 1 {
      AccumulateIsJoinLast(segs);
    } else {
      SecondsLastTail(segs);
      AccumulateIsJoin(segs[1..]);
      AccumulateIsJoinStep(segs);
    }
  }

  lemma AccumulateIsJoinLast(segs: seq<Segment>)
    requires |segs| == 1 && segs[0].unit == SecondsUnit
    ensures |Words(segs)| > 0
    ensures Accumulate(segs) == Join(Words(segs))
  {
    var c, u := CountText(segs[0].count), UnitWord(segs[0].unit);
    WordsStep(segs);
    assert Accumulate(segs) == Piece(segs[0]);
    JoinCons(c, [u]);
  }

  lemma AccumulateIsJoinStep(segs: seq<Segment>)
    requires |segs| > 1 && segs[0].unit != SecondsUnit
    requires |Words(segs[1..])| > 0
    requires Accumulate(segs[1..]) == Join(Words(segs[1..]))
    ensures |Words(segs)| > 0
    ensures Accumulate(segs) == Join(Words(segs))
  {
    var c, u := CountText(segs[0].count), UnitWord(segs[0].unit);
    var ws := Words(segs[1..]);
    var j := Join(ws);
    WordsStep(segs);
    AccumulateCons(segs);
    assert [c, u] + ws == [c] + ([u] + ws);
    JoinCons(c, [u] + ws);
    JoinCons(u, ws);
    Regroup(c, u, j);
  }

  lemma AccumulateCons(segs: seq<Segment>)
    requires |segs| > 0 && segs[0].unit != SecondsUnit
    ensures Accumulate(segs)
         == (CountText(segs[0].count) + " " + UnitWord(segs[0].unit) + " ") + Accumulate(segs[1..])
  {
  }

  lemma JoinSix(a: string, b: string, c: string, d: string, e: string, f: string)
    ensures Join([a, b, c, d, e, f]) == a + " " + (b + " " + (c + " " + (d + " " + (e + " " + f))))
  {
    JoinCons(e, [f]);
    JoinCons(d, [e, f]);
    JoinCons(c, [d, e, f]);
    JoinCons(b, [c, d, e, f]);
    JoinCons(a, [b, c, d, e, f]);
  }

  lemma Regroup(c: string, u: string, j: string)
    ensures (c + " " + u + " ") + j == c + " " + (u + " " + j)
  {
  }

  lemma WordsStep(segs: seq<Segment>)
    requires |segs| > 0
    ensures Words(segs) == [CountText(segs[0].count), UnitWord(segs[0].unit)] + Words(segs[1..])
    ensures |segs| == 1 ==> Words(segs) == [CountText(segs[0].count), UnitWord(segs[0].unit)]
  {
  }

  lemma SecondsLastTail(segs: seq<Segment>)
    requires SecondsLast(segs) && |segs| > 1
    ensures SecondsLast(segs[1..])
  {
    var rest := segs[1..];
    forall i | 0 <= i < |rest| - 1
      ensures rest[i].unit != SecondsUnit
    {
      assert rest[i] == segs[i + 1];
    }
  }

  lemma JoinCons(w: string, ws: seq<string>)
    requires |ws| > 0
    ensures Join([w] + ws) == w + " " + Join(ws)
  {
    assert ([w] + ws)[1..] == ws;
  }

  lemma {:induction false} SplitWordThenRest(w: string, rest: string)
    requires ' ' !in w
    ensures SplitSpaces(w + " " + rest) == [w] + SplitSpaces(rest)
  {
    if |w| == 0 {
      assert (w + " " + rest)[1..] == rest;
    } else {
      assert (w + " " + rest)[1..] == w[1..] + " " + rest;
      assert ' ' !in w[1..] by {
        forall i | 0 <= i < |w[1..]|
          ensures w[1..][i] != ' '
        {
          assert w[1..][i] == w[i + 1];
        }
      }
      SplitWordThenRest(w[1..], rest);
      assert [w[0]] + w[1..] == w;
    }
  }

  lemma {:induction false} SplitWord(w: string)
    requires ' ' !in w
    ensures SplitSpaces(w) == [w]
  {
    if |w| > 0 {
      assert ' ' !in w[1..] by {
        forall i | 0 <= i < |w[1..]|
          ensures w[1..][i] != ' '
        {
          assert w[1..][i] == w[i + 1];
        }
      }
      SplitWord(w[1..]);
      assert [w[0]] + w[1..] == w;
    }
  }

  lemma {:induction false} SplitJoin(ws: seq<string>)
    requires |ws| > 0
    requires forall i | 0 <= i < |ws| :: IsWord(ws[i])
    ensures SplitSpaces(Join(ws)) == ws
  {
    assert ' ' !in ws[0] by {
      forall i | 0 <= i < |ws[0]|
        ensures ws[0][i] != ' '
      {
        assert !IsSpace(ws[0][i]);
      }
    }
    if |ws| == 1 {
      SplitWord(ws[0]);
    } else {
      SplitWordThenRest(ws[0], Join(ws[1..]));
      assert forall i | 0 <= i < |ws[1..]| :: IsWord(ws[1..][i]) by {
        forall i | 0 <= i < |ws[1..]|
          ensures IsWord(ws[1..][i])
        {
          assert ws[1..][i] == ws[i + 1];
        }
      }
      SplitJoin(ws[1..]);
    }
  }

  lemma {:induction false} WordsAreWords(segs: seq<Segment>)
    ensures |Words(segs)| == 2 * |segs|
    ensures forall i | 0 <= i < |Words(segs)| :: IsWord(Words(segs)[i])
  {
    if |segs| > 0 {
      WordsAreWords(segs[1..]);
      var ws := Words(segs);
      var first := [CountText(segs[0].count), UnitWord(segs[0].unit)];
      assert ws == first + Words(segs[1..]);
      forall i | 0 <= i < |ws|
        ensures IsWord(ws[i])
      {
        if i >= 2 {
          assert ws[i] == Words(segs[1..])[i - 2];
        }
      }
    }
  }

  lemma {:induction false} ParseWords(segs: seq<Segment>)
    ensures ParsePairs(Words(segs)) == Some(segs)
  {
    if |segs| > 0 {
      var ws := Words(segs);
      assert ws[2..] == Words(segs[1..]);
      ParseWords(segs[1..]);
      assert [segs[0]] + segs[1..] == segs;
    }
  }

  /** The first character of joined words is the first word's first. */
  lemma JoinStart(ws: seq<string>)
    requires |ws| > 0 && |ws[0]| > 0
    ensures |Join(ws)| > 0 && Join(ws)[0] == ws[0][0]
  {
  }

  /** The last character of joined words is the last word's last. */
  lemma {:induction false} JoinEnd(ws: seq<string>)
    requires |ws| > 0 && |ws[|ws| - 1]| > 0
    ensures |Join(ws)| > 0 && Join(ws)[|Join(ws)| - 1] == ws[|ws| - 1][|ws[|ws| - 1]| - 1]
  {
    if |ws| > 1 {
      JoinEnd(ws[1..]);
    }
  }

  /** Trimming a text that neither starts nor ends with whitespace changes
      nothing. */
  lemma TrimUnchanged(s: string)
    requires |s| > 0 && !IsSpace(s[0]) && !IsSpace(s[|s| - 1])
    ensures Trim(s) == s
  {
  }

  /** The stored text is the segments' words joined by single spaces: the
      trailing space left by the pieces never survives, and trimming has
      nothing else to remove. */
  lemma TrimmedTextIsJoinedWords(segs: seq<Segment>)
    requires SecondsLast(segs)
    ensures |Words(segs)| > 0
    ensures Trim(Accumulate(segs)) == Join(Words(segs))
  {
    AccumulateIsJoin(segs);
    WordsAreWords(segs);
    var ws := Words(segs);
    JoinStart(ws);
    JoinEnd(ws);
    TrimUnchanged(Join(ws));
  }

  /** The stored text is the formatted segments' words joined by single
      spaces. */
  lemma TimeTextIsJoinedWords(t: Num)
    ensures |Words(FormatTime(t))| > 0
    ensures TimeText(t) == Join(Words(FormatTime(t)))
  {
    TrimmedTextIsJoinedWords(FormatTime(t));
  }

  /** Round trip: the stored text reads back as exactly the segments it
      was formatted from. */
  lemma TrimmedTextRoundTrip(segs: seq<Segment>)
    requires SecondsLast(segs)
    ensures |Words(segs)| > 0 && Trim(Accumulate(segs)) == Join(Words(segs))
    ensures ParseTime(Trim(Accumulate(segs))) == Some(segs)
  {
    TrimmedTextIsJoinedWords(segs);
    WordsAreWords(segs);
    SplitJoin(Words(segs));
    ParseWords(segs);
  }

  /** The stored text of a non-negative time determines the time to the
      nearest second: two such times with the same text round to the same
      number of seconds. */
  lemma TextDeterminesRoundedTime(t1: real, t2: real)
    requires 0.0 <= t1 && 0.0 <= t2
    ensures TimeText(Fin(t1)) == TimeText(Fin(t2)) ==> Round(60.0 * t1) == Round(60.0 * t2)
  {
    FormatTimeKeepsEverything(t1);
    FormatTimeKeepsEverything(t2);
  }

  /** The text for 90 minutes. */
  lemma NinetyMinutesText()
    ensures TimeText(Fin(90.0)) == "1 hours 30 minutes 0 seconds"
  {
    NinetyMinutesExample();
    TimeTextIsJoinedWords(Fin(90.0));
    NinetyMinutesWords();
  }

  lemma NinetyMinutesWords()
    ensures Join(Words([Segment(Whole(1), HoursUnit), Segment(Whole(30), MinutesUnit), Segment(Whole(0), SecondsUnit)]))
         == "1 hours 30 minutes 0 seconds"
  {
    NinetyMinutesWordList();
    NinetyMinutesJoin();
  }

  lemma NinetyMinutesWordList()
    ensures Words([Segment(Whole(1), HoursUnit), Segment(Whole(30), MinutesUnit), Segment(Whole(0), SecondsUnit)])
         == ["1", "hours", "30", "minutes", "0", "seconds"]
  {
    var segs := [Segment(Whole(1), HoursUnit), Segment(Whole(30), MinutesUnit), Segment(Whole(0), SecondsUnit)];
    assert CountText(Whole(30)) == "30" by { assert Decimal(3) == "3"; }
    assert CountText(Whole(1)) == "1" && CountText(Whole(0)) == "0";
    assert Words(segs[2..]) == ["0", "seconds"];
    assert Words(segs[1..]) == ["30", "minutes", "0", "seconds"] by { assert segs[1..][1..] == segs[2..]; }
  }

  lemma NinetyMinutesJoin()
    ensures Join(["1", "hours", "30", "minutes", "0", "seconds"]) == "1 hours 30 minutes 0 seconds"
  {
    JoinSix("1", "hours", "30", "minutes", "0", "seconds");
    NinetyMinutesLiteral();
  }

  lemma NinetyMinutesLiteral()
    ensures "1" + " " + ("hours" + " " + ("30" + " " + ("minutes" + " " + ("0" + " " + "seconds")))) == "1 hours 30 minutes 0 seconds"
  {
  }

}
