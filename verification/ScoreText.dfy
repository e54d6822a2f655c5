/** The text form of a score: reading it, printing it, and the round trip between the two. */
module ScoreText {
  import opened Wrappers
  import opened Score
  import opened Text

  // Tokens.

  predicate IsDigit(c: char) {
    '0' <= c <= '9'
  }

  predicate AllDigits(ds: string) {
    forall i :: 0 <= i < |ds| ==> IsDigit(ds[i])
  }

  predicate IsNumber(ds: string) {
    ds != "" && AllDigits(ds)
  }

  function DigitValue(c: char): (d: nat)
    requires IsDigit(c)
    ensures d < 10
  {
    (c - '0') as int
  }

  /** The value of a run of digits, without the overflow of machine integers. */
  function Atoi(ds: string): nat
    requires AllDigits(ds)
  {
    if ds == "" then 0 else 10 * Atoi(ds[..|ds| - 1]) + DigitValue(ds[|ds| - 1])
  }

  function Power10(k: nat): nat {
    if k == 0 then 1 else 10 * Power10(k - 1)
  }

  /** Positional notation: what stands further left counts ten times as much. */
  lemma {:induction false} AtoiJoin(a: string, b: string)
    requires AllDigits(a) && AllDigits(b)
    ensures Atoi(a + b) == Atoi(a) * Power10(|b|) + Atoi(b)
    decreases |b|
  {
    if b == "" {
      assert a + b == a;
    } else {
      var n := |b| - 1;
      AtoiJoin(a, b[..n]);
      assert (a + b)[..|a + b| - 1] == a + b[..n];
      var d := DigitValue(b[n]);
      assert Atoi(a + b) == 10 * Atoi(a + b[..n]) + d && Atoi(b) == 10 * Atoi(b[..n]) + d;
      assert Power10(|b|) == 10 * Power10(n);
      hide *;
      TenTimes(Atoi(a), Power10(n), Atoi(b[..n]));
    }
  }

  lemma TenTimes(x: int, y: int, z: int)
    ensures 10 * (x * y + z) == x * (10 * y) + 10 * z
  {
  }

  /** A single digit is its distance from '0'. */
  lemma AtoiDigit(c: char)
    requires IsDigit(c)
    ensures Atoi([c]) == c as int - 48
  {
    assert [c][..0] == "";
  }

  function DigitRun(s: string): (n: nat)
    ensures n <= |s|
    ensures forall i :: 0 <= i < n ==> IsDigit(s[i])
    ensures n < |s| ==> !IsDigit(s[n])
  {
    if s == "" || !IsDigit(s[0]) then 0 else 1 + DigitRun(s[1..])
  }

  /** digits-digits at the start of `s`, and what follows. */
  function MatchPair(s: string): (r: Option<(string, string, string)>)
    ensures r.Some? ==> IsNumber(r.value.0) && IsNumber(r.value.1)
  {
    var i := DigitRun(s);
    if i == 0 || i == |s| || s[i] != '-' then None
    else
      var t := s[i + 1..];
      var j := DigitRun(t);
      if j == 0 then None else Some((s[..i], t[..j], t[j..]))
  }

  datatype Groups = Groups(a: string, b: string, tiebreak: Option<(string, string)>)

  /** The regular expression of a token: d-d, optionally followed by (d-d). */
  function MatchToken(tok: string): (r: Option<Groups>)
    ensures r.Some? ==> IsNumber(r.value.a) && IsNumber(r.value.b)
    ensures r.Some? && r.value.tiebreak.Some? ==> IsNumber(r.value.tiebreak.value.0) && IsNumber(r.value.tiebreak.value.1)
  {
    match MatchPair(tok)
    case None => None
    case Some((a, b, rest)) =>
      if rest == "" then Some(Groups(a, b, None))
      else if rest[0] != '(' then None
      else
        match MatchPair(rest[1..])
        case Some((ta, tb, ")")) => Some(Groups(a, b, Some((ta, tb))))
        case _ => None
  }

  function TokenText(g: Groups): string {
    g.a + "-" + g.b + if g.tiebreak.Some? then "(" + (g.tiebreak.value.0 + "-" + g.tiebreak.value.1 + ")") else ""
  }

  predicate WellFormedGroups(g: Groups) {
    && IsNumber(g.a) && IsNumber(g.b)
    && (g.tiebreak.Some? ==> IsNumber(g.tiebreak.value.0) && IsNumber(g.tiebreak.value.1))
  }

  lemma {:induction false} DigitRunOf(ds: string, rest: string)
    requires AllDigits(ds)
    requires rest == "" || !IsDigit(rest[0])
    ensures DigitRun(ds + rest) == |ds|
  {
    if ds == "" {
      assert ds + rest == rest;
    } else {
      assert (ds + rest)[1..] == ds[1..] + rest;
      DigitRunOf(ds[1..], rest);
    }
  }

  lemma MatchPairOf(a: string, b: string, rest: string)
    requires IsNumber(a) && IsNumber(b) && (rest == "" || !IsDigit(rest[0]))
    ensures MatchPair(a + "-" + b + rest) == Some((a, b, rest))
  {
    var s := a + "-" + b + rest;
    assert s == a + ("-" + b + rest);
    DigitRunOf(a, "-" + b + rest);
    assert s[|a| + 1..] == b + rest && s[..|a|] == a;
    DigitRunOf(b, rest);
  }

  lemma MatchPairSplits(s: string)
    ensures MatchPair(s).Some? ==>
              var (a, b, rest) := MatchPair(s).value;
              s == a + "-" + b + rest && (rest == "" || !IsDigit(rest[0]))
  {
  }

  lemma TokenTextMatches(g: Groups)
    requires WellFormedGroups(g)
    ensures MatchToken(TokenText(g)) == Some(g)
  {
    if g.tiebreak.Some? {
      var (ta, tb) := g.tiebreak.value;
      var rest := "(" + ta + "-" + tb + ")";
      assert TokenText(g) == g.a + "-" + g.b + rest;
      MatchPairOf(g.a, g.b, rest);
      assert rest[1..] == ta + "-" + tb + ")";
      MatchPairOf(ta, tb, ")");
    } else {
      MatchPairOf(g.a, g.b, "");
    }
  }

  lemma MatchedTokenIsText(tok: string)
    requires MatchToken(tok).Some?
    ensures tok == TokenText(MatchToken(tok).value)
  {
    hide DigitRun, IsDigit, IsNumber;
    MatchPairSplits(tok);
    var (a, b, rest) := MatchPair(tok).value;
    if rest != "" {
      MatchPairSplits(rest[1..]);
      var (ta, tb, close) := MatchPair(rest[1..]).value;
      Parenthesised(rest, ta + "-" + tb + close);
    }
  }

  lemma Parenthesised(s: string, t: string)
    requires s != "" && s[0] == '(' && s[1..] == t
    ensures s == "(" + t
  {
  }

  /** A token matches with groups g exactly when it is the text of g. */
  lemma TokenGrammar(tok: string, g: Groups)
    ensures MatchToken(tok) == Some(g) <==> WellFormedGroups(g) && tok == TokenText(g)
  {
    if WellFormedGroups(g) {
      TokenTextMatches(g);
    }
    if MatchToken(tok) == Some(g) {
      MatchedTokenIsText(tok);
    }
  }

  function ParseToken(tok: string): Result<SetScore, ScoreError> {
    match MatchToken(tok)
    case None => Err(InvalidToken)
    case Some(g) =>
      var ga, gb := Atoi(g.a), Atoi(g.b);
      if g.tiebreak.None? then Ok(SetScore(ga, gb, None))
      else if ga != gb then Err(InvalidSet)
      else Ok(SetScore(ga, gb, Some((Atoi(g.tiebreak.value.0), Atoi(g.tiebreak.value.1)))))
  }

  /** All tokens, or the error of the first bad one. */
  function ParseTokens(toks: seq<string>): Result<seq<SetScore>, ScoreError> {
    if toks == [] then Ok([])
    else
      match ParseTokens(toks[..|toks| - 1])
      case Err(e) => Err(e)
      case Ok(sets) =>
        match ParseToken(toks[|toks| - 1])
        case Err(e) => Err(e)
        case Ok(s) => Ok(sets + [s])
  }

  function Parsed(score: string): Result<seq<SetScore>, ScoreError> {
    if Fields(score) == [] then Err(ScoreEmpty) else ParseTokens(Fields(score))
  }

  lemma ParseOneMore(toks: seq<string>, k: nat)
    requires k < |toks| && ParseTokens(toks[..k]).Ok?
    ensures ParseTokens(toks[..k + 1]) ==
            match ParseToken(toks[k])
            case Err(e) => Err(e)
            case Ok(s) => Ok(ParseTokens(toks[..k]).value + [s])
  {
    assert toks[..k + 1][..k] == toks[..k];
  }

  lemma {:induction false} FirstErrorWins(toks: seq<string>, k: nat)
    requires k <= |toks| && ParseTokens(toks[..k]).Err?
    ensures ParseTokens(toks) == ParseTokens(toks[..k])
  {
    if k < |toks| {
      assert toks[..|toks| - 1][..k] == toks[..k];
      FirstErrorWins(toks[..|toks| - 1], k);
    } else {
      assert toks[..k] == toks;
    }
  }

  /** Token k is the first bad one: those before it parse. */
  predicate FirstBad(toks: seq<string>, k: nat) {
    k < |toks| && ParseToken(toks[k]).Err? && forall i :: 0 <= i < k ==> ParseToken(toks[i]).Ok?
  }

  /** A token is no token unless it is the text of some groups, and no set if tiebreak points follow unequal games. */
  lemma TokenErrors(tok: string)
    ensures ParseToken(tok) == Err(InvalidToken) <==> forall g :: WellFormedGroups(g) ==> tok != TokenText(g)
    ensures ParseToken(tok) == Err(InvalidSet) <==>
            exists g :: WellFormedGroups(g) && tok == TokenText(g) && g.tiebreak.Some? && Atoi(g.a) != Atoi(g.b)
    ensures ParseToken(tok).Ok? || ParseToken(tok).error in {InvalidToken, InvalidSet}
  {
    if MatchToken(tok).Some? {
      TokenGrammar(tok, MatchToken(tok).value);
    }
    forall g | WellFormedGroups(g) && tok == TokenText(g)
      ensures MatchToken(tok) == Some(g)
    {
      TokenGrammar(tok, g);
    }
  }

  /** Which error a score text gives: none of its words, or the error of the first bad one. */
  lemma {:induction false} ScoreErrors(score: string, e: ScoreError)
    ensures Parsed(score) == Err(e) <==>
            || (e == ScoreEmpty && Fields(score) == [])
            || exists k: nat :: FirstBad(Fields(score), k) && ParseToken(Fields(score)[k]) == Err(e)
  {
    if Fields(score) != [] {
      TokensErrors(Fields(score), e);
    }
  }

  lemma {:induction false} TokensErrors(toks: seq<string>, e: ScoreError)
    ensures ParseTokens(toks) == Err(e) <==> exists k: nat :: FirstBad(toks, k) && ParseToken(toks[k]) == Err(e)
    ensures ParseTokens(toks).Ok? ==> forall i :: 0 <= i < |toks| ==> ParseToken(toks[i]).Ok?
  {
    hide ParseToken;
    if toks != [] {
      var n := |toks| - 1;
      var before := toks[..n];
      TokensErrors(before, e);
      if ParseTokens(before).Err? {
        TokensErrors(before, ParseTokens(before).error);
        var k: nat :| FirstBad(before, k) && ParseToken(before[k]) == ParseErr(ParseTokens(before).error);
        assert FirstBad(toks, k);
      } else if ParseToken(toks[n]).Err? {
        assert FirstBad(toks, n);
      }
    }
  }

  function ParseErr(e: ScoreError): Result<SetScore, ScoreError> {
    Err(e)
  }

  method ParseScore(score: string) returns (r: Result<seq<SetScore>, ScoreError>)
    ensures r == Parsed(score)
  {
    FieldsOfTrimmed(score);
    var trimmed := TrimSpace(score);
    if trimmed == "" {
      return Err(ScoreEmpty);
    }
    var tokens := Fields(trimmed);
    var sets: seq<SetScore> := [];
    for i := 0 to |tokens|
      invariant ParseTokens(tokens[..i]) == Ok(sets)
    {
      ParseOneMore(tokens, i);
      var s := ParseToken(tokens[i]);
      if s.Err? {
        FirstErrorWins(tokens, i + 1);
        return Err(s.error);
      }
      sets := sets + [s.value];
    }
    assert tokens[..|tokens|] == tokens;
    return Ok(sets);
  }

  // Printing.

  function Digit(d: nat): (c: char)
    requires d < 10
    ensures IsDigit(c) && DigitValue(c) == d
  {
    '0' + d as char
  }

  function Itoa(n: nat): (ds: string)
    ensures IsNumber(ds)
  {
    if n < 10 then [Digit(n)] else Itoa(n / 10) + [Digit(n % 10)]
  }

  lemma {:induction false} AtoiItoa(n: nat)
    ensures Atoi(Itoa(n)) == n
  {
    if n < 10 {
      assert Itoa(n)[..0] == "";
    } else {
      AtoiItoa(n / 10);
      assert Itoa(n)[..|Itoa(n)| - 1] == Itoa(n / 10);
    }
  }

  function GroupsOf(s: SetScore): Groups {
    Groups(Itoa(s.gamesA), Itoa(s.gamesB),
           if s.tiebreak.Some? then Some((Itoa(s.tiebreak.value.0), Itoa(s.tiebreak.value.1))) else None)
  }

  function PrintToken(s: SetScore): string {
    TokenText(GroupsOf(s))
  }

  function PrintScore(sets: seq<SetScore>): string {
    if sets == [] then ""
    else if |sets| == 1 then PrintToken(sets[0])
    else PrintToken(sets[0]) + " " + PrintScore(sets[1..])
  }

  /** Tiebreak points are written only at equal games. */
  predicate Printable(s: SetScore) {
    s.tiebreak.Some? ==> s.gamesA == s.gamesB
  }

  lemma ParsePrintedToken(s: SetScore)
    requires Printable(s)
    ensures ParseToken(PrintToken(s)) == Ok(s)
  {
    TokenGrammar(PrintToken(s), GroupsOf(s));
    AtoiItoa(s.gamesA);
    AtoiItoa(s.gamesB);
    if s.tiebreak.Some? {
      AtoiItoa(s.tiebreak.value.0);
      AtoiItoa(s.tiebreak.value.1);
    }
  }

  predicate NoSpaces(s: string) {
    forall i :: 0 <= i < |s| ==> !IsSpace(s[i])
  }

  lemma NumbersHaveNoSpaces(ds: string)
    requires IsNumber(ds)
    ensures NoSpaces(ds)
  {
  }

  lemma NoSpacesJoin(s: string, c: char, t: string)
    requires NoSpaces(s) && NoSpaces(t) && !IsSpace(c)
    ensures NoSpaces(s + [c] + t)
  {
    hide IsSpace;
  }

  lemma PrintedTokenIsWord(s: SetScore)
    ensures IsWord(PrintToken(s))
  {
    var g := GroupsOf(s);
    NumbersHaveNoSpaces(g.a);
    NumbersHaveNoSpaces(g.b);
    NoSpacesJoin(g.a, '-', g.b);
    if g.tiebreak.Some? {
      var (ta, tb) := g.tiebreak.value;
      NumbersHaveNoSpaces(ta);
      NumbersHaveNoSpaces(tb);
      NoSpacesJoin(ta, '-', tb);
      NoSpacesJoin(g.a + "-" + g.b, '(', ta + "-" + tb);
      NoSpacesJoin(g.a + "-" + g.b + "(" + (ta + "-" + tb), ')', "");
      assert PrintToken(s) == g.a + "-" + g.b + "(" + (ta + "-" + tb) + ")" + "";
    }
  }

  function PrintTokens(sets: seq<SetScore>): (r: seq<string>)
    ensures |r| == |sets| && forall i :: 0 <= i < |sets| ==> r[i] == PrintToken(sets[i])
  {
    seq(|sets|, i requires 0 <= i < |sets| => PrintToken(sets[i]))
  }

  lemma {:induction false} FieldsOfPrinted(sets: seq<SetScore>)
    ensures Fields(PrintScore(sets)) == PrintTokens(sets)
  {
    if sets != [] {
      PrintedTokenIsWord(sets[0]);
      if |sets| == 1 {
        assert PrintScore(sets) == PrintToken(sets[0]) + "";
        FieldsOfWord(PrintToken(sets[0]), "");
      } else {
        var rest := " " + PrintScore(sets[1..]);
        assert PrintScore(sets) == PrintToken(sets[0]) + rest;
        FieldsOfWord(PrintToken(sets[0]), rest);
        assert rest[1..] == PrintScore(sets[1..]);
        FieldsOfPrinted(sets[1..]);
      }
    }
  }

  lemma {:induction false} ParsePrintedTokens(sets: seq<SetScore>, k: nat)
    requires k <= |sets| && forall i :: 0 <= i < |sets| ==> Printable(sets[i])
    ensures ParseTokens(PrintTokens(sets)[..k]) == Ok(sets[..k])
  {
    hide PrintToken, ParseToken, Printable;
    if k > 0 {
      ParsePrintedTokens(sets, k - 1);
      ParsePrintedToken(sets[k - 1]);
      ParseOneMore(PrintTokens(sets), k - 1);
      assert sets[..k] == sets[..k - 1] + [sets[k - 1]];
    }
  }

  /** Reading what was printed gives back the same sets. */
  lemma {:induction false} TextRoundTrip(sets: seq<SetScore>)
    requires sets != [] && forall i :: 0 <= i < |sets| ==> Printable(sets[i])
    ensures Parsed(PrintScore(sets)) == Ok(sets)
  {
    FieldsOfPrinted(sets);
    ParsePrintedTokens(sets, |sets|);
    assert PrintTokens(sets)[..|sets|] == PrintTokens(sets) && sets[..|sets|] == sets;
  }

  lemma {:induction false} ParsedTokensArePrintable(toks: seq<string>)
    ensures ParseTokens(toks).Ok? ==> forall i :: 0 <= i < |ParseTokens(toks).value| ==> Printable(ParseTokens(toks).value[i])
  {
    if toks != [] {
      ParsedTokensArePrintable(toks[..|toks| - 1]);
    }
  }

  /** Everything that can be read can be printed, and reads back the same. */
  lemma {:induction false} ReprintParsed(score: string)
    requires Parsed(score).Ok?
    ensures Parsed(PrintScore(Parsed(score).value)) == Parsed(score)
  {
    ParsedTokensArePrintable(Fields(score));
    TextRoundTrip(Parsed(score).value);
  }
}
