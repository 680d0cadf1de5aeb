/**
 * Which mock answers a query, `JdbcMockPlugin.checkMatching`: each mock gets a score for the query and
 * for its bound parameters, and the best one is kept.
 */
module JdbcMock {
  import opened Wrappers
  import opened Text
  import opened TemplateParse
  import opened TemplateLaws
  import opened TemplateMatch
  import opened TemplateExact

  /** A query with its bound parameters; a parameter may be null. */
  datatype Request = Request(query: string, parameters: seq<Option<string>>)

  datatype JdbcMock = JdbcMock(index: int, request: Request)

  /** Java's regular expressions, not part of this model: `None` stands for a malformed one. */
  type Regexp = (string, string) -> Option<bool>

  /** How a mock compares with a request; an exception ends the whole search. */
  datatype Verdict = NoMatch | Scored(score: nat) | Throws

  // ---------------------------------------------------------------- the comparison

  predicate IsVariable(s: string) { StartsWith(s, "${") && EndsWith(s, "}") }

  predicate IsPattern(s: string) { StartsWith(s, "@{") && EndsWith(s, "}") }

  /** The regular expression inside `@{...}`, as it is cut out; too short a text throws. */
  function PatternIn(s: string): Option<string> {
    if |s| - 3 < 2 then None else Some(s[2..|s| - 3])
  }

  function Matches(regexp: Regexp, pattern: string, text: string): Option<bool> {
    match PatternIn(pattern)
    case None => None
    case Some(r) => regexp(r, text)
  }

  /** One section of the template against the piece of the query it was matched with. */
  function SectionAgrees(regexp: Regexp, possible: string, piece: string): Option<bool> {
    if EqualsIgnoreCase(possible, piece) || IsVariable(possible) then Some(true)
    else if IsPattern(possible) then Matches(regexp, possible, piece)
    else Some(false)
  }

  /** All sections agree; the first that does not, or that throws, decides. */
  function SectionsAgree(regexp: Regexp, possible: seq<string>, pieces: seq<string>): Option<bool>
    requires |possible| == |pieces|
    decreases |possible|
  {
    if possible == [] then Some(true)
    else match SectionAgrees(regexp, possible[0], pieces[0])
      case None => None
      case Some(false) => Some(false)
      case Some(true) => SectionsAgree(regexp, possible[1..], pieces[1..])
  }

  const EXACT_QUERY := 10000
  const TEMPLATE_QUERY := 1000

  function QueryVerdict(regexp: Regexp, possible: string, query: string): Verdict {
    if EqualsIgnoreCase(possible, query) then Scored(EXACT_QUERY)
    else match Parsed(possible)
      case Err(_) => Throws
      case Ok(path) =>
        var pieces := Matched(path, query);
        if |path| != |pieces| then NoMatch
        else match SectionsAgree(regexp, path, pieces)
          case None => Throws
          case Some(agree) => if agree then Scored(TEMPLATE_QUERY) else NoMatch
  }

  /** The points of one bound parameter. */
  function ParameterPoints(regexp: Regexp, possible: Option<string>, actual: Option<string>): Option<nat> {
    if possible.None? then Some(if actual.None? then 3 else 0)
    else if actual.Some? && EqualsIgnoreCase(possible.value, actual.value) then Some(3)
    else if IsVariable(possible.value) then Some(1)
    else if IsPattern(possible.value) then
      if actual.None? then None
      else match Matches(regexp, possible.value, actual.value)
        case None => None
        case Some(m) => Some(if m then 2 else 0)
    else Some(0)
  }

  function ParametersPoints(regexp: Regexp, possible: seq<Option<string>>, actual: seq<Option<string>>): (r: Option<nat>)
    requires |possible| == |actual|
    ensures r.Some? ==> r.value <= 3 * |possible|
    decreases |possible|
  {
    if possible == [] then Some(0)
    else match (ParameterPoints(regexp, possible[0], actual[0]), ParametersPoints(regexp, possible[1..], actual[1..]))
      case (Some(p), Some(rest)) => Some(p + rest)
      case _ => None
  }

  function VerdictOf(regexp: Regexp, mock: JdbcMock, request: Request): Verdict {
    if |mock.request.parameters| != |request.parameters| then NoMatch
    else match QueryVerdict(regexp, mock.request.query, request.query)
      case NoMatch => NoMatch
      case Throws => Throws
      case Scored(score) =>
        match ParametersPoints(regexp, mock.request.parameters, request.parameters)
        case None => Throws
        case Some(points) => Scored(score + points)
  }

  // ---------------------------------------------------------------- the loops of the source

  method VerifyQuery(regexp: Regexp, possible: string, query: string) returns (verdict: Verdict)
    ensures verdict == QueryVerdict(regexp, possible, query)
  {
    if EqualsIgnoreCase(possible, query) { return Scored(10000); }
    var possiblePath := Parse(possible);
    if possiblePath.Err? { return Throws; }
    var path := possiblePath.value;
    var toSimulatePath := Match(path, query);
    if |path| != |toSimulatePath| { return NoMatch; }
    assert path[0..] == path && toSimulatePath[0..] == toSimulatePath;
    for i := 0 to |path|
      invariant SectionsAgree(regexp, path, toSimulatePath) == SectionsAgree(regexp, path[i..], toSimulatePath[i..])
    {
      assert path[i..][0] == path[i] && path[i..][1..] == path[i + 1..];
      assert toSimulatePath[i..][0] == toSimulatePath[i] && toSimulatePath[i..][1..] == toSimulatePath[i + 1..];
      var agrees := SectionAgrees(regexp, path[i], toSimulatePath[i]);
      if agrees.None? { return Throws; }
      if !agrees.value { return NoMatch; }
    }
    return Scored(1000);
  }

  /** The accumulation of points over the parameters, starting from the score of the query. */
  method MatchParameters(regexp: Regexp, possible: seq<Option<string>>, actual: seq<Option<string>>, score: nat)
    returns (matchedQuery: Option<nat>)
    requires |possible| == |actual|
    ensures matchedQuery == match ParametersPoints(regexp, possible, actual)
                            { case None => None case Some(points) => Some(score + points) }
  {
    var total := score;
    assert possible[0..] == possible && actual[0..] == actual;
    for i := 0 to |possible|
      invariant score <= total
      invariant match ParametersPoints(regexp, possible[i..], actual[i..])
                case None => ParametersPoints(regexp, possible, actual) == None
                case Some(rest) => ParametersPoints(regexp, possible, actual) == Some(total - score + rest)
    {
      assert possible[i..][0] == possible[i] && possible[i..][1..] == possible[i + 1..];
      assert actual[i..][0] == actual[i] && actual[i..][1..] == actual[i + 1..];
      var points := ParameterPoints(regexp, possible[i], actual[i]);
      if points.None? { return None; }
      total := total + points.value;
    }
    assert possible[|possible|..] == [] && actual[|actual|..] == [];
    return Some(total);
  }

  /** The best score so far, and the index of the mock that has it. */
  datatype Best = Best(matchingQuery: nat, foundedIndex: int)

  method CheckMatching(regexp: Regexp, data: JdbcMock, request: Request, best: Best) returns (r: Option<Best>)
    ensures r == Checked(regexp, data, request, best)
  {
    if |data.request.parameters| != |request.parameters| { return Some(best); }
    var verdict := VerifyQuery(regexp, data.request.query, request.query);
    if verdict.Throws? { return None; }
    if verdict.NoMatch? { return Some(best); }
    var matchedQuery := MatchParameters(regexp, data.request.parameters, request.parameters, verdict.score);
    if matchedQuery.None? { return None; }
    if matchedQuery.value > best.matchingQuery { return Some(Best(matchedQuery.value, data.index)); }
    return Some(best);
  }

  function Checked(regexp: Regexp, data: JdbcMock, request: Request, best: Best): Option<Best> {
    match VerdictOf(regexp, data, request)
    case Throws => None
    case NoMatch => Some(best)
    case Scored(score) => Some(if score > best.matchingQuery then Best(score, data.index) else best)
  }

  predicate AnyThrows(regexp: Regexp, mocks: seq<JdbcMock>, request: Request) {
    exists m :: m in mocks && VerdictOf(regexp, m, request).Throws?
  }

  function ScoreOf(regexp: Regexp, mock: JdbcMock, request: Request): nat {
    match VerdictOf(regexp, mock, request) case Scored(score) => score case _ => 0
  }

  /** Mock `k` is the first of those with the highest score, and it matches. */
  predicate IsFirstBest(regexp: Regexp, mocks: seq<JdbcMock>, request: Request, k: nat) {
    && k < |mocks| && VerdictOf(regexp, mocks[k], request).Scored?
    && (forall j :: 0 <= j < |mocks| ==> ScoreOf(regexp, mocks[j], request) <= ScoreOf(regexp, mocks[k], request))
    && (forall j :: 0 <= j < k ==> ScoreOf(regexp, mocks[j], request) < ScoreOf(regexp, mocks[k], request))
  }

  lemma {:induction false} MatchScores(regexp: Regexp, mock: JdbcMock, request: Request)
    requires VerdictOf(regexp, mock, request).Scored?
    ensures var n := |request.parameters|; var score := ScoreOf(regexp, mock, request);
            if EqualsIgnoreCase(mock.request.query, request.query) then EXACT_QUERY <= score <= EXACT_QUERY + 3 * n
            else TEMPLATE_QUERY <= score <= TEMPLATE_QUERY + 3 * n
  {}

  /**
   * The pass over the mocks: it throws exactly when some mock does, and otherwise leaves the index of the
   * first mock of maximal score, or -1 when none matches.
   */
  method SelectMock(regexp: Regexp, mocks: seq<JdbcMock>, request: Request) returns (foundedIndex: Option<int>)
    ensures foundedIndex.None? <==> AnyThrows(regexp, mocks, request)
    ensures foundedIndex.Some? ==>
              (foundedIndex.value == -1 && forall m :: m in mocks ==> VerdictOf(regexp, m, request).NoMatch?)
              || exists k: nat :: IsFirstBest(regexp, mocks, request, k) && foundedIndex.value == mocks[k].index
  {
    var best := Best(0, -1);
    ghost var at: Option<nat> := None;
    for i := 0 to |mocks|
      invariant !AnyThrows(regexp, mocks[..i], request)
      invariant IsBestSoFar(regexp, mocks[..i], request, best, at)
    {
      assert mocks[..i + 1] == mocks[..i] + [mocks[i]];
      var next := CheckMatching(regexp, mocks[i], request, best);
      if next.None? {
        assert mocks[i] in mocks;
        return None;
      }
      BestStep(regexp, mocks[..i], mocks[i], request, best, at);
      if next.value != best {
        at := Some(i);
      }
      best := next.value;
    }
    assert mocks[..|mocks|] == mocks;
    foundedIndex := Some(best.foundedIndex);
  }

  ghost predicate IsBestSoFar(regexp: Regexp, mocks: seq<JdbcMock>, request: Request, best: Best, at: Option<nat>) {
    match at
    case None => best == Best(0, -1) && forall m :: m in mocks ==> VerdictOf(regexp, m, request).NoMatch?
    case Some(k) =>
      && IsFirstBest(regexp, mocks, request, k)
      && best == Best(ScoreOf(regexp, mocks[k], request), mocks[k].index)
  }

  lemma {:induction false} BestStep(regexp: Regexp, seen: seq<JdbcMock>, mock: JdbcMock, request: Request, best: Best, at: Option<nat>)
    requires IsBestSoFar(regexp, seen, request, best, at) && !VerdictOf(regexp, mock, request).Throws?
    requires !AnyThrows(regexp, seen, request)
    ensures var next := Checked(regexp, mock, request, best).value;
            var now := if VerdictOf(regexp, mock, request).Scored? && ScoreOf(regexp, mock, request) > best.matchingQuery
                       then Some(|seen|) else at;
            && IsBestSoFar(regexp, seen + [mock], request, next, now)
            && !AnyThrows(regexp, seen + [mock], request)
            && (next != best <==> VerdictOf(regexp, mock, request).Scored? && ScoreOf(regexp, mock, request) > best.matchingQuery)
  {
    var all := seen + [mock];
    assert all[|seen|] == mock && forall j :: 0 <= j < |seen| ==> all[j] == seen[j];
    assert forall m :: m in all <==> m in seen || m == mock;
    if VerdictOf(regexp, mock, request).Scored? { MatchScores(regexp, mock, request); }
    forall j | 0 <= j < |seen| ensures at.None? ==> ScoreOf(regexp, all[j], request) == 0 { assert seen[j] in seen; }
  }

  // ---------------------------------------------------------------- what a bound parameter is worth

  /** Both null, or equal up to case. */
  predicate SameParameter(possible: Option<string>, actual: Option<string>) {
    || (possible.None? && actual.None?)
    || (possible.Some? && actual.Some? && EqualsIgnoreCase(possible.value, actual.value))
  }

  /** Text `@{...}` around a regular expression; its last character inside the braces is cut off with them. */
  predicate FitsPattern(regexp: Regexp, possible: Option<string>, actual: Option<string>) {
    && possible.Some? && StartsWith(possible.value, "@{") && EndsWith(possible.value, "}") && |possible.value| >= 5
    && actual.Some? && regexp(possible.value[2..|possible.value| - 3], actual.value) == Some(true)
  }

  predicate IsAnyValue(possible: Option<string>) {
    possible.Some? && StartsWith(possible.value, "${") && EndsWith(possible.value, "}")
  }

  /** For the parameter at hand, equal goes before a pattern that fits, that before a variable, that before the rest. */
  predicate Outranks(regexp: Regexp, a: Option<string>, b: Option<string>, actual: Option<string>) {
    !SameParameter(b, actual)
    && (|| SameParameter(a, actual)
        || (!FitsPattern(regexp, b, actual)
            && (FitsPattern(regexp, a, actual) || (IsAnyValue(a) && !IsAnyValue(b)))))
  }

  /** A pattern throws on null, when it is too short, and when its regular expression is malformed. */
  predicate ParameterThrows(regexp: Regexp, possible: Option<string>, actual: Option<string>) {
    && possible.Some? && StartsWith(possible.value, "@{") && EndsWith(possible.value, "}")
    && !SameParameter(possible, actual)
    && (actual.None? || |possible.value| < 5 || regexp(possible.value[2..|possible.value| - 3], actual.value).None?)
  }

  lemma {:induction false} FirstOfPrefix(s: string, prefix: string)
    requires StartsWith(s, prefix) && prefix != ""
    ensures s[0] == prefix[0]
  {}

  lemma {:induction false} VariableIsNoPattern(s: string)
    requires StartsWith(s, "${")
    ensures !StartsWith(s, "@{")
  {
    FirstOfPrefix(s, "${");
  }

  lemma {:induction false} PointsAre(regexp: Regexp, possible: Option<string>, actual: Option<string>)
    ensures ParameterPoints(regexp, possible, actual)
            == if ParameterThrows(regexp, possible, actual) then None
               else Some(if SameParameter(possible, actual) then 3 else if FitsPattern(regexp, possible, actual) then 2
                         else if IsAnyValue(possible) then 1 else 0)
  {
    if possible.Some? && StartsWith(possible.value, "${") { VariableIsNoPattern(possible.value); }
  }

  lemma {:induction false} PointsRank(regexp: Regexp, a: Option<string>, b: Option<string>, actual: Option<string>)
    requires ParameterPoints(regexp, a, actual).Some? && ParameterPoints(regexp, b, actual).Some?
    ensures ParameterPoints(regexp, b, actual).value < ParameterPoints(regexp, a, actual).value
            <==> Outranks(regexp, a, b, actual)
  {
    PointsAre(regexp, a, actual);
    PointsAre(regexp, b, actual);
  }

  lemma {:induction false} PointsDiffer(regexp: Regexp, a: seq<Option<string>>, b: seq<Option<string>>, actual: seq<Option<string>>, n: nat)
    requires |a| == |b| == |actual| && n < |actual| && forall j :: 0 <= j < |actual| && j != n ==> a[j] == b[j]
    requires ParametersPoints(regexp, a, actual).Some? && ParametersPoints(regexp, b, actual).Some?
    ensures ParameterPoints(regexp, a[n], actual[n]).Some? && ParameterPoints(regexp, b[n], actual[n]).Some?
    ensures ParametersPoints(regexp, a, actual).value - ParametersPoints(regexp, b, actual).value
            == ParameterPoints(regexp, a[n], actual[n]).value - ParameterPoints(regexp, b[n], actual[n]).value
    decreases n
  {
    if n == 0 {
      assert a[1..] == b[1..];
    } else {
      PointsDiffer(regexp, a[1..], b[1..], actual[1..], n - 1);
    }
  }

  /** Of two matching mocks that differ in one parameter, the second is selected exactly when its parameter outranks the first's. */
  lemma {:induction false} BetterParameterWins(regexp: Regexp, first: JdbcMock, second: JdbcMock, request: Request, n: nat, k: nat)
    requires first.request.query == second.request.query && n < |request.parameters|
    requires |first.request.parameters| == |second.request.parameters| == |request.parameters|
    requires forall j :: 0 <= j < |request.parameters| && j != n ==> first.request.parameters[j] == second.request.parameters[j]
    requires VerdictOf(regexp, first, request).Scored? && VerdictOf(regexp, second, request).Scored?
    requires IsFirstBest(regexp, [first, second], request, k)
    ensures k == 1 <==> Outranks(regexp, second.request.parameters[n], first.request.parameters[n], request.parameters[n])
  {
    var mocks := [first, second];
    PointsDiffer(regexp, second.request.parameters, first.request.parameters, request.parameters, n);
    PointsRank(regexp, second.request.parameters[n], first.request.parameters[n], request.parameters[n]);
    assert ScoreOf(regexp, first, request) < ScoreOf(regexp, second, request)
           <==> Outranks(regexp, second.request.parameters[n], first.request.parameters[n], request.parameters[n]);
    assert mocks[0] == first && mocks[1] == second;
  }

  lemma {:induction false} PointsThrow(regexp: Regexp, possible: seq<Option<string>>, actual: seq<Option<string>>)
    requires |possible| == |actual|
    ensures ParametersPoints(regexp, possible, actual).None?
            <==> exists n :: 0 <= n < |actual| && ParameterThrows(regexp, possible[n], actual[n])
    decreases |actual|
  {
    if possible != [] {
      PointsAre(regexp, possible[0], actual[0]);
      PointsThrow(regexp, possible[1..], actual[1..]);
      assert forall n :: 0 <= n < |actual| - 1 ==> possible[1..][n] == possible[n + 1] && actual[1..][n] == actual[n + 1];
      if n :| 0 <= n < |actual| && ParameterThrows(regexp, possible[n], actual[n]) {
        if n > 0 { assert ParameterThrows(regexp, possible[1..][n - 1], actual[1..][n - 1]); }
      }
      if n :| 0 <= n < |actual| - 1 && ParameterThrows(regexp, possible[1..][n], actual[1..][n]) {
        assert ParameterThrows(regexp, possible[n + 1], actual[n + 1]);
      }
    }
  }

  /** A mock whose query matches makes the search throw exactly when one of its parameters does. */
  lemma {:induction false} MockThrowsIff(regexp: Regexp, mock: JdbcMock, request: Request)
    requires |mock.request.parameters| == |request.parameters|
    requires QueryVerdict(regexp, mock.request.query, request.query).Scored?
    ensures VerdictOf(regexp, mock, request).Throws?
            <==> exists n :: 0 <= n < |request.parameters|
                             && ParameterThrows(regexp, mock.request.parameters[n], request.parameters[n])
  {
    PointsThrow(regexp, mock.request.parameters, request.parameters);
  }

  // ---------------------------------------------------------------- what a section of a query is worth

  /** The piece is the section up to case, or the section is a variable, or a pattern that fits the piece. */
  predicate SectionFits(regexp: Regexp, possible: string, piece: string) {
    EqualsIgnoreCase(possible, piece) || IsAnyValue(Some(possible)) || FitsPattern(regexp, Some(possible), Some(piece))
  }

  predicate SectionThrows(regexp: Regexp, possible: string, piece: string) {
    ParameterThrows(regexp, Some(possible), Some(piece))
  }

  lemma {:induction false} SectionIs(regexp: Regexp, possible: string, piece: string)
    ensures SectionAgrees(regexp, possible, piece)
            == if SectionThrows(regexp, possible, piece) then None else Some(SectionFits(regexp, possible, piece))
  {
    if StartsWith(possible, "${") { VariableIsNoPattern(possible); }
    if IsPattern(possible) && |possible| >= 5 {
      assert PatternIn(possible) == Some(possible[2..|possible| - 3]);
      match regexp(possible[2..|possible| - 3], piece)
      case None =>
      case Some(m) => assert Matches(regexp, possible, piece) == Some(m);
    }
  }

  predicate AllFit(regexp: Regexp, possible: seq<string>, pieces: seq<string>, n: int)
    requires |possible| == |pieces|
  {
    forall i :: 0 <= i < n && i < |possible| ==> SectionFits(regexp, possible[i], pieces[i])
  }

  /** Section `i` throws, and all before it fit. */
  predicate ThrowsAt(regexp: Regexp, possible: seq<string>, pieces: seq<string>, i: int)
    requires |possible| == |pieces|
  {
    0 <= i < |possible| && SectionThrows(regexp, possible[i], pieces[i]) && AllFit(regexp, possible, pieces, i)
  }

  lemma {:induction false} FitLater(regexp: Regexp, possible: seq<string>, pieces: seq<string>, n: int)
    requires |possible| == |pieces| > 0 && n > 0 && SectionFits(regexp, possible[0], pieces[0])
    ensures AllFit(regexp, possible, pieces, n) <==> AllFit(regexp, possible[1..], pieces[1..], n - 1)
  {
    assert forall i :: 0 <= i < |possible| - 1 ==> possible[1..][i] == possible[i + 1] && pieces[1..][i] == pieces[i + 1];
    if AllFit(regexp, possible[1..], pieces[1..], n - 1) {
      forall i | 0 <= i < n && i < |possible| ensures SectionFits(regexp, possible[i], pieces[i]) {
        if i > 0 { assert SectionFits(regexp, possible[1..][i - 1], pieces[1..][i - 1]); }
      }
    }
  }

  lemma {:induction false} SectionsAre(regexp: Regexp, possible: seq<string>, pieces: seq<string>)
    requires |possible| == |pieces|
    ensures SectionsAgree(regexp, possible, pieces).None? <==> exists i :: ThrowsAt(regexp, possible, pieces, i)
    ensures SectionsAgree(regexp, possible, pieces) == Some(true) <==> AllFit(regexp, possible, pieces, |possible|)
    decreases |possible|
  {
    if possible != [] {
      SectionIs(regexp, possible[0], pieces[0]);
      if SectionThrows(regexp, possible[0], pieces[0]) {
        assert ThrowsAt(regexp, possible, pieces, 0);
        ThrowingFitsNot(regexp, possible[0], pieces[0]);
      } else if SectionFits(regexp, possible[0], pieces[0]) {
        SectionsAre(regexp, possible[1..], pieces[1..]);
        FitLater(regexp, possible, pieces, |possible|);
        forall i | i > 0 ensures ThrowsAt(regexp, possible, pieces, i) <==> ThrowsAt(regexp, possible[1..], pieces[1..], i - 1) {
          FitLater(regexp, possible, pieces, i);
        }
        if i :| ThrowsAt(regexp, possible, pieces, i) { assert ThrowsAt(regexp, possible[1..], pieces[1..], i - 1); }
        if i :| ThrowsAt(regexp, possible[1..], pieces[1..], i) { assert ThrowsAt(regexp, possible, pieces, i + 1); }
      }
    }
  }

  lemma {:induction false} ThrowingFitsNot(regexp: Regexp, possible: string, piece: string)
    requires SectionThrows(regexp, possible, piece)
    ensures !SectionFits(regexp, possible, piece)
  {
    if StartsWith(possible, "${") { VariableIsNoPattern(possible); }
  }

  /**
   * The verdict on a query: exact when it is the mock's up to case; an exception for a template that cannot
   * be parsed; none without a piece for every section; else a template that matches exactly when every
   * piece fits its section, and an exception exactly when a section throws behind sections that fit.
   */
  lemma {:induction false} QueryVerdictIs(regexp: Regexp, possible: string, query: string)
    ensures QueryVerdict(regexp, possible, query) == Scored(10000) <==> EqualsIgnoreCase(possible, query)
    ensures !EqualsIgnoreCase(possible, query) ==>
              if Parsed(possible).Err? then QueryVerdict(regexp, possible, query).Throws?
              else
                var path := Parsed(possible).value; var pieces := Matched(path, query);
                if |path| != |pieces| then QueryVerdict(regexp, possible, query).NoMatch?
                else
                  && (QueryVerdict(regexp, possible, query).Throws? <==> exists i :: ThrowsAt(regexp, path, pieces, i))
                  && (QueryVerdict(regexp, possible, query).Scored? <==> AllFit(regexp, path, pieces, |path|))
                  && (QueryVerdict(regexp, possible, query).Scored? ==> QueryVerdict(regexp, possible, query) == Scored(1000))
  {
    if Parsed(possible).Ok? && |Parsed(possible).value| == |Matched(Parsed(possible).value, query)| {
      SectionsAre(regexp, Parsed(possible).value, Matched(Parsed(possible).value, query));
    }
  }

  // ---------------------------------------------------------------- what templates accept

  lemma {:induction false} AllSectionsAgree(regexp: Regexp, possible: seq<string>, pieces: seq<string>)
    requires |possible| == |pieces|
    requires forall i :: 0 <= i < |possible| ==> SectionAgrees(regexp, possible[i], pieces[i]) == Some(true)
    ensures SectionsAgree(regexp, possible, pieces) == Some(true)
    decreases |possible|
  {
    if possible != [] {
      forall i | 0 <= i < |possible| - 1 ensures SectionAgrees(regexp, possible[1..][i], pieces[1..][i]) == Some(true) {
        assert possible[1..][i] == possible[i + 1] && pieces[1..][i] == pieces[i + 1];
      }
      AllSectionsAgree(regexp, possible[1..], pieces[1..]);
    }
  }

  /** A mock whose query is a template of `${...}` variables, with no literal that looks like a placeholder. */
  predicate IsVariableTemplate(possible: string) {
    && Parsed(possible).Ok?
    && LiteralsArePlain(Parsed(possible).value)
    && forall i :: 0 <= i < |Parsed(possible).value| && i % 2 == 1 ==> IsVariable(Parsed(possible).value[i])
  }

  /** Such a mock accepts exactly the queries that contain an instance of its template. */
  lemma {:induction false} TemplateAcceptsIff(regexp: Regexp, possible: string, query: string)
    requires IsVariableTemplate(possible) && !EqualsIgnoreCase(possible, query)
    ensures QueryVerdict(regexp, possible, query)
            == if Occurs(Parsed(possible).value, true, query) then Scored(TEMPLATE_QUERY) else NoMatch
  {
    var path := Parsed(possible).value;
    ParseKeepsText(possible);
    CanonicalAlternates(path);
    MatchIsLeftmostInstance(path, true, query);
    if Occurs(path, true, query) {
      var found := Matched(path, query);
      var cuts :| IsBestInstance(path, true, query, cuts, found);
      forall i | 0 <= i < |path| ensures SectionAgrees(regexp, path[i], found[i]) == Some(true) {
        if i % 2 == 0 { assert IsLiteral(i, true); }
      }
      AllSectionsAgree(regexp, path, found);
    }
  }

  // ---------------------------------------------------------------- exact queries against templates

  predicate IsExact(mock: JdbcMock, request: Request) { EqualsIgnoreCase(mock.request.query, request.query) }

  /** Whatever the mocks and the regular expressions, a matching exact mock outscores every matching template. */
  ghost predicate ExactAlwaysWins(n: nat) {
    forall regexp: Regexp, request: Request, exact: JdbcMock, template: JdbcMock ::
      |request.parameters| == n
      && VerdictOf(regexp, exact, request).Scored? && IsExact(exact, request)
      && VerdictOf(regexp, template, request).Scored? && !IsExact(template, request)
      ==> ScoreOf(regexp, template, request) < ScoreOf(regexp, exact, request)
  }

  /** That holds for up to 2999 bound parameters, and no more. */
  lemma {:induction false} ExactAlwaysWinsIff(n: nat)
    ensures ExactAlwaysWins(n) <==> n < 3000
  {
    if n < 3000 {
      forall regexp: Regexp, request: Request, exact: JdbcMock, template: JdbcMock |
        |request.parameters| == n
        && VerdictOf(regexp, exact, request).Scored? && IsExact(exact, request)
        && VerdictOf(regexp, template, request).Scored? && !IsExact(template, request)
        ensures ScoreOf(regexp, template, request) < ScoreOf(regexp, exact, request)
      {
        MatchScores(regexp, exact, request);
        MatchScores(regexp, template, request);
      }
    } else {
      var regexp: Regexp := (r, s) => None;
      var request, exact, template := CheapExactMock(regexp, n);
      assert !(ScoreOf(regexp, template, request) < ScoreOf(regexp, exact, request));
    }
  }

  function Repeated(n: nat, s: string): seq<Option<string>> {
    if n == 0 then [] else [Some(s)] + Repeated(n - 1, s)
  }

  lemma {:induction false} RepeatedPoints(regexp: Regexp, n: nat, possible: string, actual: string)
    requires !IsVariable(possible) && !IsPattern(possible)
    ensures |Repeated(n, possible)| == n == |Repeated(n, actual)|
    ensures ParametersPoints(regexp, Repeated(n, possible), Repeated(n, actual))
            == Some(if EqualsIgnoreCase(possible, actual) then 3 * n else 0)
    decreases n
  {
    if n > 0 { RepeatedPoints(regexp, n - 1, possible, actual); }
  }

  lemma {:induction false} VerdictAdds(regexp: Regexp, mock: JdbcMock, request: Request, score: nat, points: nat)
    requires |mock.request.parameters| == |request.parameters|
    requires QueryVerdict(regexp, mock.request.query, request.query) == Scored(score)
    requires ParametersPoints(regexp, mock.request.parameters, request.parameters) == Some(points)
    ensures VerdictOf(regexp, mock, request) == Scored(score + points)
  {}

  /** An exact mock none of whose parameters fit, and a template all of whose parameters do. */
  lemma {:induction false} CheapExactMock(regexp: Regexp, n: nat) returns (request: Request, exact: JdbcMock, template: JdbcMock)
    ensures |request.parameters| == n
    ensures IsExact(exact, request) && VerdictOf(regexp, exact, request) == Scored(EXACT_QUERY)
    ensures !IsExact(template, request) && VerdictOf(regexp, template, request) == Scored(TEMPLATE_QUERY + 3 * n)
  {
    request := Request("a", Repeated(n, "y"));
    exact := JdbcMock(1, Request("a", Repeated(n, "x")));
    template := JdbcMock(2, Request("${v}", Repeated(n, "y")));
    RepeatedPoints(regexp, n, "x", "y");
    assert Fold("x"[0]) != Fold("y"[0]);
    RepeatedPoints(regexp, n, "y", "y");
    VariableAcceptsAll(regexp, "a");
    VerdictAdds(regexp, exact, request, EXACT_QUERY, 0);
    VerdictAdds(regexp, template, request, TEMPLATE_QUERY, 3 * n);
  }

  /** The list of a single placeholder: the empty literal in front of it, and itself. */
  lemma {:induction false} PlaceholderParses(p: string)
    requires IsPlaceholder(p)
    ensures Parsed(p) == Ok(["", p]) && IsCanonical(["", p])
  {
    NothingHasNone();
    ConcatTwo("", p, []);
    assert ["", p] + [] == ["", p] && "" + (p + "") == p;
    ParseOfConcat(["", p]);
  }

  lemma {:induction false} VariableOccurs(path: seq<string>, query: string)
    requires |path| == 2 && path[0] == ""
    ensures Occurs(path, true, query)
  {
    var cuts: seq<nat> := [0, 0, |query|];
    assert PieceIs(query, cuts, 0, "") && Piece(query, cuts, 1);
    assert IsInstance(path, true, query, cuts);
  }

  lemma {:induction false} VariableIsPlaceholder()
    ensures IsPlaceholder("${v}") && IsVariable("${v}") && !IsTemplate("")
  {
    var v := "${v}";
    assert v[2..3] == "v" && v[..2] == "${" && v[3..] == "}";
  }

  lemma {:induction false} VariableAcceptsAll(regexp: Regexp, query: string)
    requires !EqualsIgnoreCase("${v}", query)
    ensures QueryVerdict(regexp, "${v}", query) == Scored(TEMPLATE_QUERY)
  {
    var v := "${v}";
    VariableIsPlaceholder();
    PlaceholderParses(v);
    VariableOccurs(["", v], query);
    assert IsVariableTemplate(v);
    TemplateAcceptsIff(regexp, v, query);
  }
}
