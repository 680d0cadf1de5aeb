/**
 * When the matcher can be trusted on a parsed template. A literal such as `${1}` is no placeholder
 * for the tokenizer, but looks like one to the matcher; the matcher is right on every query exactly
 * when the template has no such literal.
 */
module TemplateExact {
  import opened Wrappers
  import opened Text
  import opened TemplateParse
  import opened TemplateLaws
  import opened TemplateMatch

  /** A full-length answer means the query holds an instance, and literals are given back as they are. */
  ghost predicate Faithful(paths: seq<string>, query: string) {
    var found := Matched(paths, query);
    && (|found| == |paths| <==> Occurs(paths, true, query))
    && (|found| == |paths| ==> forall i :: 0 <= i < |paths| && i % 2 == 0 ==> found[i] == paths[i])
  }

  predicate LiteralsArePlain(paths: seq<string>) {
    forall i :: 0 <= i < |paths| && i % 2 == 0 ==> !IsTemplate(paths[i])
  }

  lemma {:induction false} CanonicalAlternates(paths: seq<string>)
    requires IsCanonical(paths) && LiteralsArePlain(paths)
    ensures Alternates(paths, true)
  {
    forall i | 0 <= i < |paths| ensures IsTemplate(paths[i]) != IsLiteral(i, true) {
      if i % 2 == 1 { PlaceholderIsTemplate(paths[i]); }
    }
  }

  lemma {:induction false} PlaceholderIsTemplate(p: string)
    requires IsPlaceholder(p)
    ensures IsTemplate(p)
  {
    assert p[..2] == [p[0], p[1]] && p[|p| - 1..] == [p[|p| - 1]];
  }

  // ---------------------------------------------------------------- a query that defeats the matcher

  /** The pattern with a space for every placeholder: a query holding an instance but no placeholder. */
  function Spaced(paths: seq<string>, literal: bool): string {
    if paths == [] then "" else (if literal then paths[0] else " ") + Spaced(paths[1..], !literal)
  }

  lemma {:induction false} SpacedIsInstance(paths: seq<string>, literal: bool, before: string, after: string)
    returns (cuts: seq<nat>)
    ensures IsInstance(paths, literal, before + Spaced(paths, literal) + after, cuts) && cuts[0] == |before|
    decreases |paths|
  {
    var query := before + Spaced(paths, literal) + after;
    if paths == [] {
      cuts := [|before|];
    } else {
      var piece := if literal then paths[0] else " ";
      assert query == before + piece + Spaced(paths[1..], !literal) + after;
      cuts := SpacedIsInstance(paths[1..], !literal, before + piece, after);
      InstanceCons(paths, literal, query, cuts, |before|);
      cuts := [|before|] + cuts;
    }
  }

  lemma {:induction false} NoBlankInside(s: string, i: nat, j: nat, m: nat)
    requires i < j <= |s| && m < |s| && IsPlaceholder(s[i..j]) && s[m] == ' '
    ensures m < i || j <= m
  {
    PlaceholderAt(s, i, j);
  }

  /** A placeholder has no blank in it, so a blank keeps two texts apart. */
  lemma {:induction false} BlankSeparates(a: string, b: string)
    requires HasPlaceholder(a + " " + b)
    ensures HasPlaceholder(a) || HasPlaceholder(b)
  {
    var s := a + " " + b;
    var i, j :| 0 <= i < j <= |s| && IsPlaceholder(s[i..j]);
    NoBlankInside(s, i, j, |a|);
    if j <= |a| {
      assert s[i..j] == a[i..j];
    } else {
      assert s[i..j] == b[i - |a| - 1..j - |a| - 1];
    }
  }

  lemma {:induction false} NothingHasNone()
    ensures !HasPlaceholder("")
  {}

  lemma {:induction false} SpacedHasNone(paths: seq<string>)
    requires forall i :: 0 <= i < |paths| && i % 2 == 0 ==> !HasPlaceholder(paths[i])
    ensures !HasPlaceholder(Spaced(paths, true))
    decreases |paths|
  {
    if |paths| >= 2 {
      var rest := paths[2..];
      forall i | 0 <= i < |rest| && i % 2 == 0 ensures !HasPlaceholder(rest[i]) { assert rest[i] == paths[i + 2]; }
      SpacedHasNone(rest);
      assert paths[1..][1..] == rest;
      assert Spaced(paths, true) == paths[0] + " " + Spaced(rest, true);
      if HasPlaceholder(Spaced(paths, true)) { BlankSeparates(paths[0], Spaced(rest, true)); }
    } else if |paths| == 1 {
      assert paths[1..] == [] && Spaced(paths, true) == paths[0] + "" == paths[0];
    } else {
      NothingHasNone();
    }
  }

  ghost predicate Absent(query: string, text: string) { forall k :: !OccursAt(query, text, k) }

  /** A capture is only closed by the raw text of the next path; without it there is no answer. */
  lemma {:induction false} MissingTextFails(paths: seq<string>, query: string, start: nat, i: nat)
    requires start <= |query| && i + 1 < |paths| && IsTemplate(paths[i]) && Absent(query, paths[i + 1])
    ensures Segments(paths, query, start).None?
    decreases |paths|
  {
    if i > 0 {
      var rest := paths[1..];
      assert rest[i - 1] == paths[i] && rest[i] == paths[i + 1];
      var at := IndexOf(query, if IsTemplate(paths[0]) then paths[1] else paths[0], start);
      if at >= 0 {
        MissingTextFails(rest, query, if IsTemplate(paths[0]) then at else at + |paths[0]|, i - 1);
      }
    }
  }

  /** A template-like path in last position takes whatever is left of the query. */
  lemma {:induction false} LastTakesRest(paths: seq<string>, query: string, start: nat)
    requires start <= |query| && paths != [] && IsTemplate(paths[|paths| - 1]) && Segments(paths, query, start).Some?
    ensures var found := Segments(paths, query, start).value;
            found != [] && EndsWith(query, found[|found| - 1])
    decreases |paths|
  {
    if |paths| > 1 {
      var e := if IsTemplate(paths[0]) then IndexOf(query, paths[1], start)
               else IndexOf(query, paths[0], start) + |paths[0]|;
      LastTakesRest(paths[1..], query, e);
    }
  }

  lemma {:induction false} SpacedOccurs(paths: seq<string>, after: string)
    ensures Occurs(paths, true, Spaced(paths, true) + after)
  {
    var cuts := SpacedIsInstance(paths, true, "", after);
    assert "" + Spaced(paths, true) + after == Spaced(paths, true) + after;
  }

  lemma {:induction false} PlaceholderAbsent(query: string, p: string)
    requires !HasPlaceholder(query) && IsPlaceholder(p)
    ensures Absent(query, p)
  {
    forall k ensures !OccursAt(query, p, k) {}
  }

  lemma {:induction false} NoAnswerIsUnfaithful(paths: seq<string>, query: string)
    requires paths != [] && Occurs(paths, true, query) && Segments(paths, query, 0).None?
    ensures !Faithful(paths, query)
  {}

  lemma {:induction false} NoPlaceholderNoAnswer(paths: seq<string>, query: string, i: nat)
    requires i + 1 < |paths| && IsTemplate(paths[i]) && IsPlaceholder(paths[i + 1]) && !HasPlaceholder(query)
    ensures Segments(paths, query, 0).None?
  {
    PlaceholderAbsent(query, paths[i + 1]);
    MissingTextFails(paths, query, 0, i);
  }

  lemma {:induction false} PlaceholderAfter(paths: seq<string>, i: nat)
    requires IsCanonical(paths) && i % 2 == 0 && i + 1 < |paths|
    ensures IsPlaceholder(paths[i + 1])
  {
    var next := i + 1;
    assert next % 2 == 1;
  }

  lemma {:induction false} DefeatedInside(paths: seq<string>, i: nat)
    requires IsCanonical(paths) && i % 2 == 0 && i + 1 < |paths| && IsTemplate(paths[i])
    ensures !Faithful(paths, Spaced(paths, true))
  {
    PlaceholderAfter(paths, i);
    SpacedOccurs(paths, "");
    assert Spaced(paths, true) + "" == Spaced(paths, true);
    SpacedHasNone(paths);
    NoPlaceholderNoAnswer(paths, Spaced(paths, true), i);
    NoAnswerIsUnfaithful(paths, Spaced(paths, true));
  }

  lemma {:induction false} WrongLastIsUnfaithful(paths: seq<string>, query: string)
    requires |paths| % 2 == 1 && |Matched(paths, query)| > 0
    requires Matched(paths, query)[|Matched(paths, query)| - 1] != paths[|paths| - 1]
    requires Occurs(paths, true, query)
    ensures !Faithful(paths, query)
  {}

  lemma {:induction false} RestOfQuery(query: string, found: string, last: string)
    requires query != "" && query[|query| - 1] == 'z' && EndsWith(query, found) && EndsWith(last, "}")
    ensures found != last
  {
    assert last[|last| - 1..][0] == '}';
    assert found != "" ==> query[|query| - |found|..][|found| - 1] == 'z';
  }

  lemma {:induction false} DefeatedAtEnd(paths: seq<string>)
    requires IsCanonical(paths) && |paths| % 2 == 1 && IsTemplate(paths[|paths| - 1])
    ensures !Faithful(paths, Spaced(paths, true) + "z")
  {
    var query := Spaced(paths, true) + "z";
    SpacedOccurs(paths, "z");
    if Segments(paths, query, 0).Some? {
      assert Matched(paths, query) != [] && EndsWith(query, Matched(paths, query)[|Matched(paths, query)| - 1]) by {
        LastTakesRest(paths, query, 0);
      }
      RestOfQuery(query, Matched(paths, query)[|Matched(paths, query)| - 1], paths[|paths| - 1]);
      WrongLastIsUnfaithful(paths, query);
    } else {
      NoAnswerIsUnfaithful(paths, query);
    }
  }

  /**
   * On a template produced by the tokenizer the matcher is faithful for every query exactly when no
   * literal of the template looks like a placeholder.
   */
  lemma {:induction false} MatchFaithfulIff(paths: seq<string>)
    requires IsCanonical(paths)
    ensures (forall query :: Faithful(paths, query)) <==> LiteralsArePlain(paths)
  {
    if LiteralsArePlain(paths) {
      CanonicalAlternates(paths);
      forall query ensures Faithful(paths, query) {
        MatchIsLeftmostInstance(paths, true, query);
      }
    } else {
      var i :| 0 <= i < |paths| && i % 2 == 0 && IsTemplate(paths[i]);
      if i + 1 < |paths| { DefeatedInside(paths, i); } else { DefeatedAtEnd(paths); }
    }
  }

  lemma {:induction false} DigitIsNoPlaceholder()
    ensures !HasPlaceholder("${1}") && !HasOpenTail("${1}") && IsTemplate("${1}")
  {
    var p := "${1}";
    assert !IsSigil(p[1]) && !IsSigil(p[2]) && !IsSigil(p[3]) && !IsLetter(p[2]);
    forall i, j | 0 <= i < j <= |p| ensures !IsPlaceholder(p[i..j]) {
      if IsPlaceholder(p[i..j]) { PlaceholderAt(p, i, j); }
    }
    forall i | 0 <= i < |p| ensures !IsOpen(p[i..]) {
      if IsOpen(p[i..]) { OpenText(p, i); }
    }
    assert p[..2] == "${" && p[3..] == "}";
  }

  lemma {:induction false} TooShort(text: string, query: string)
    requires |query| < |text|
    ensures !Occurs([text], true, query)
  {
    forall cuts ensures !IsInstance([text], true, query, cuts) {
      assert IsInstance([text], true, query, cuts) ==> PieceIs(query, cuts, 0, [text][0]);
    }
  }

  /** The shortest such template: `${1}` parses to one literal, which then matches the empty query. */
  lemma {:induction false} DigitPlaceholderDefeats()
    ensures Parsed("${1}") == Ok(["${1}"])
    ensures Matched(["${1}"], "") == [""] && !Occurs(["${1}"], true, "")
  {
    DigitIsNoPlaceholder();
    ConcatOne("${1}");
    ParseOfConcat(["${1}"]);
    TooShort("${1}", "");
    assert ""[0..] == "";
  }
}
