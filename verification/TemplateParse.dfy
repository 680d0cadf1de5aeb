/**
 * The tokenizer of query templates, `ExtraStringReplacer.parse`: text is cut into literals and
 * placeholders such as `${name}` or `@{name}`.
 */
module TemplateParse {
  import opened Wrappers
  import opened Text

  predicate IsSigil(c: char) { c == '$' || c == '@' }

  predicate IsLetter(c: char) { 65 <= c as int <= 90 || 97 <= c as int <= 122 }

  predicate Letters(s: string) { forall i :: 0 <= i < |s| ==> IsLetter(s[i]) }

  /** A complete placeholder: a sigil, `{`, letters (possibly none) and `}`. */
  predicate IsPlaceholder(s: string) {
    |s| >= 3 && IsSigil(s[0]) && s[1] == '{' && s[|s| - 1] == '}' && Letters(s[2..|s| - 1])
  }

  /** A placeholder left open up to the end of the text. */
  predicate IsOpen(s: string) {
    |s| >= 2 && IsSigil(s[0]) && s[1] == '{' && Letters(s[2..])
  }

  predicate HasOpenTail(s: string) { exists i :: 0 <= i < |s| && IsOpen(s[i..]) }

  predicate HasPlaceholder(s: string) {
    exists i, j :: 0 <= i < j <= |s| && IsPlaceholder(s[i..j])
  }

  /** Two complete placeholders with nothing between them. */
  predicate HasAdjacentPlaceholders(s: string) {
    exists i, j, k :: 0 <= i < j < k <= |s| && IsPlaceholder(s[i..j]) && IsPlaceholder(s[j..k])
  }

  /**
   * The shape promised for a parsed template: literals at even positions, placeholders at odd
   * ones, no placeholder inside a literal, and only the very first literal may be empty, and
   * only when something follows it.
   */
  predicate IsCanonical(ts: seq<string>) {
    && (forall i :: 0 <= i < |ts| && i % 2 == 1 ==> IsPlaceholder(ts[i]))
    && (forall i :: 0 <= i < |ts| && i % 2 == 0 ==> !HasPlaceholder(ts[i]))
    && (forall i :: 0 < i < |ts| && i % 2 == 0 ==> ts[i] != "")
    && ts != [""]
  }

  /** Characters of a slice, for reading placeholders off the text. */
  lemma {:induction false} PlaceholderAt(s: string, i: nat, j: nat)
    requires i < j <= |s| && IsPlaceholder(s[i..j])
    ensures i + 3 <= j && IsSigil(s[i]) && s[i + 1] == '{' && s[j - 1] == '}'
    ensures forall m :: i + 2 <= m < j - 1 ==> IsLetter(s[m])
  {
    var p := s[i..j];
    forall m | i + 2 <= m < j - 1 ensures IsLetter(s[m]) { assert p[2..|p| - 1][m - i - 2] == s[m]; }
  }

  lemma {:induction false} OpenText(s: string, i: nat)
    requires i < |s| && IsOpen(s[i..])
    ensures i + 2 <= |s| && IsSigil(s[i]) && s[i + 1] == '{'
    ensures forall m :: i + 2 <= m < |s| ==> IsLetter(s[m])
  {
    forall m | i + 2 <= m < |s| ensures IsLetter(s[m]) { assert s[i..][2..][m - i - 2] == s[m]; }
  }

  // ---------------------------------------------------------------- the tokenizer as a function

  /** The index of the first character of `s` at or after `k` that is not a letter. */
  function LettersEnd(s: string, k: nat): (e: nat)
    requires k <= |s|
    ensures k <= e <= |s| && Letters(s[k..e]) && (e < |s| ==> !IsLetter(s[e]))
    decreases |s| - k
  {
    if k < |s| && IsLetter(s[k]) then
      var e := LettersEnd(s, k + 1);
      assert s[k..e] == [s[k]] + s[k + 1..e];
      e
    else k
  }

  datatype Head = Complete(len: nat) | Open | Plain

  /** What the text at the front of `s` is: a complete placeholder, an open one, or a plain character. */
  function HeadOf(s: string): (h: Head)
    requires s != ""
    ensures h.Complete? ==> 3 <= h.len <= |s| && IsPlaceholder(s[..h.len])
    ensures h.Open? <==> IsOpen(s)
    ensures forall k :: 0 <= k <= |s| && IsPlaceholder(s[..k]) ==> h == Complete(k)
  {
    if |s| >= 2 && IsSigil(s[0]) && s[1] == '{' then
      var e := LettersEnd(s, 2);
      LettersAreMaximal(s, e);
      if e == |s| then Open
      else if s[e] == '}' then
        assert s[..e + 1][2..e] == s[2..e];
        Complete(e + 1)
      else Plain
    else Plain
  }

  lemma {:induction false} LettersAreMaximal(s: string, e: nat)
    requires 2 <= e <= |s| && Letters(s[2..e]) && (e < |s| ==> !IsLetter(s[e]))
    ensures forall k :: 3 <= k <= |s| && IsPlaceholder(s[..k]) ==> k == e + 1
    ensures IsOpen(s) ==> e == |s|
  {
    forall m | 2 <= m < e ensures IsLetter(s[m]) { assert s[2..e][m - 2] == s[m]; }
    forall k | 3 <= k <= |s| && IsPlaceholder(s[..k]) ensures k == e + 1 {
      assert s[0..k] == s[..k];
      PlaceholderAt(s, 0, k);
    }
    if IsOpen(s) {
      assert s[0..] == s;
      OpenText(s, 0);
    }
  }

  /**
   * The tokens of the rest `s` of the text, when `sb` is the literal collected so far and
   * `previous` tells whether the last thing seen was a placeholder.
   */
  function Tokens(s: string, sb: string, previous: bool): Result<seq<string>, string>
    decreases |s|
  {
    if s == "" then Ok(if sb == "" then [] else [sb])
    else match HeadOf(s)
      case Complete(n) =>
        if previous then Err(s[..n - 1])
        else Prepend([sb, s[..n]], Tokens(s[n..], "", true))
      case Open => Tokens(s[1..], sb, previous)
      case Plain => Tokens(s[1..], sb + [s[0]], false)
  }

  function Prepend(front: seq<string>, r: Result<seq<string>, string>): Result<seq<string>, string> {
    if r.Ok? then Ok(front + r.value) else r
  }

  lemma {:induction false} PrependNothing(r: Result<seq<string>, string>)
    ensures Prepend([], r) == r
  {
    if r.Ok? { assert [] + r.value == r.value; }
  }

  lemma {:induction false} PrependTwice(a: seq<string>, b: seq<string>, r: Result<seq<string>, string>)
    ensures Prepend(a, Prepend(b, r)) == Prepend(a + b, r)
  {
    if r.Ok? { assert a + (b + r.value) == a + b + r.value; }
  }

  function Parsed(input: string): Result<seq<string>, string> { Tokens(input, "", false) }

  /** What the outer loop has in hand: where it is, and what it found so far. */
  datatype Progress = Progress(i: nat, sb: string, previous: bool, result: seq<string>)

  /** All tokens, once those still to come are put after those found. */
  function Total(input: string, p: Progress): Result<seq<string>, string>
    requires p.i <= |input|
  {
    Prepend(p.result, Tokens(input[p.i..], p.sb, p.previous))
  }

  /** One round, by what the text at hand is; `Err` for two placeholders in a row. */
  function Advanced(input: string, p: Progress): (r: Result<Progress, string>)
    requires p.i < |input|
    ensures r.Ok? ==> p.i < r.value.i <= |input|
  {
    match HeadOf(input[p.i..])
    case Complete(n) =>
      if p.previous then Err(input[p.i..p.i + n - 1])
      else Ok(Progress(p.i + n, "", true, p.result + [p.sb, input[p.i..p.i + n]]))
    case Open => Ok(p.(i := p.i + 1))
    case Plain => Ok(p.(i := p.i + 1, sb := p.sb + [input[p.i]], previous := false))
  }

  lemma {:induction false} TokensAtPlaceholder(s: string, sb: string, n: nat)
    requires s != "" && HeadOf(s) == Complete(n)
    ensures Tokens(s, sb, false) == Prepend([sb, s[..n]], Tokens(s[n..], "", true))
  {}

  lemma {:induction false} CompleteKeepsTotal(input: string, p: Progress, n: nat)
    requires p.i < |input| && HeadOf(input[p.i..]) == Complete(n) && !p.previous
    ensures Total(input, p) == Total(input, Progress(p.i + n, "", true, p.result + [p.sb, input[p.i..p.i + n]]))
  {
    var s := input[p.i..];
    assert s[n..] == input[p.i + n..] && s[..n] == input[p.i..p.i + n];
    TokensAtPlaceholder(s, p.sb, n);
    PrependTwice(p.result, [p.sb, s[..n]], Tokens(s[n..], "", true));
  }

  lemma {:induction false} RestKeepsTotal(input: string, p: Progress)
    requires p.i < |input| && !HeadOf(input[p.i..]).Complete?
    ensures Total(input, p) == Total(input, Advanced(input, p).value)
  {
    assert input[p.i..][1..] == input[p.i + 1..];
  }

  lemma {:induction false} AdvanceKeepsTotal(input: string, p: Progress)
    requires p.i < |input|
    ensures match Advanced(input, p) { case Ok(q) => Total(input, p) == Total(input, q) case Err(e) => Total(input, p) == Err(e) }
  {
    var s := input[p.i..];
    match HeadOf(s)
    case Complete(n) =>
      if p.previous {
        assert s[..n - 1] == input[p.i..p.i + n - 1];
      } else {
        CompleteKeepsTotal(input, p, n);
      }
    case _ =>
      RestKeepsTotal(input, p);
  }

  // ---------------------------------------------------------------- the loops of the source

  /** The inner loop: scans a placeholder whose sigil is at `i`. */
  method ScanPlaceholder(chars: string, i: nat) returns (paramName: Option<string>, start: nat)
    requires i + 1 < |chars| && IsSigil(chars[i]) && chars[i + 1] == '{'
    ensures i < start
    ensures paramName.Some? && start < |chars| <==> HeadOf(chars[i..]).Complete?
    ensures paramName.Some? && start < |chars|
            ==> HeadOf(chars[i..]) == Complete(start + 1 - i) && paramName.value == chars[i..start + 1]
    ensures paramName.Some? && start >= |chars| <==> HeadOf(chars[i..]).Open?
  {
    ghost var s := chars[i..];
    start := i + 2;
    var name: string := [chars[i]] + "{";
    while start < |chars|
      invariant i + 2 <= start <= |chars|
      invariant name == chars[i..start]
      invariant Letters(chars[i + 2..start])
    {
      var ch2 := chars[start];
      if IsLetter(ch2) {
        name := name + [ch2];
        assert chars[i + 2..start + 1] == chars[i + 2..start] + [ch2];
      } else {
        assert s[2..start - i] == chars[i + 2..start];
        LettersAreMaximal(s, start - i);
        if ch2 == '}' {
          name := name + [ch2];
          assert name == s[..start + 1 - i];
          assert name[2..|name| - 1] == chars[i + 2..start];
          assert IsPlaceholder(s[..start + 1 - i]);
          return Some(name), start;
        }
        return None, start;
      }
      start := start + 1;
    }
    assert s[2..] == chars[i + 2..start];
    paramName := Some(name);
  }

  lemma {:induction false} NothingOpens(input: string, i: nat)
    requires i < |input| && !(IsSigil(input[i]) && i + 1 < |input| && input[i + 1] == '{')
    ensures HeadOf(input[i..]).Plain?
  {
    var s := input[i..];
    assert s[0] == input[i] && (|s| > 1 ==> s[1] == input[i + 1]);
  }

  /** The body of the outer loop. */
  method Round(input: string, p: Progress) returns (r: Result<Progress, string>)
    requires p.i < |input|
    ensures r == Advanced(input, p)
  {
    var Progress(i, sb, previousIsParameter, result) := p;
    var ch := input[i];
    if IsSigil(ch) && i + 1 < |input| && input[i + 1] == '{' {
      var paramName, start := ScanPlaceholder(input, i);
      if paramName.Some? && start < |input| {
        if previousIsParameter {
          return Err(input[i..start]);
        }
        result := result + [sb, paramName.value];
        sb := "";
        previousIsParameter := true;
        i := start;
      } else if paramName.None? {
        previousIsParameter := false;
        sb := sb + [ch];
      }
    } else {
      NothingOpens(input, i);
      previousIsParameter := false;
      sb := sb + [ch];
    }
    i := i + 1;
    return Ok(Progress(i, sb, previousIsParameter, result));
  }

  /** `ExtraStringReplacer.parse`; the exception for adjacent placeholders becomes `Err`. */
  method Parse(input: string) returns (r: Result<seq<string>, string>)
    ensures r == Parsed(input)
  {
    var p := Progress(0, "", false, []);
    assert input[0..] == input;
    PrependNothing(Parsed(input));
    while p.i < |input|
      invariant p.i <= |input| && Total(input, p) == Parsed(input)
      decreases |input| - p.i
    {
      AdvanceKeepsTotal(input, p);
      var next := Round(input, p);
      if next.Err? { return Err(next.error); }
      p := next.value;
    }
    assert input[p.i..] == "";
    var result := p.result;
    if p.sb != "" {
      result := result + [p.sb];
    }
    assert result == result + [];
    return Ok(result);
  }
}
