/** What the tokenizer promises: when it fails, what it keeps, and that concatenation undoes it. */
module TemplateLaws {
  import opened Wrappers
  import opened Text
  import opened TemplateParse

  // ---------------------------------------------------------------- when parsing fails

  ghost predicate StartsWithPlaceholder(s: string) {
    exists k :: 0 < k <= |s| && IsPlaceholder(s[..k])
  }

  lemma {:induction false} StartsIffComplete(s: string)
    requires s != ""
    ensures StartsWithPlaceholder(s) <==> HeadOf(s).Complete?
  {
    if HeadOf(s).Complete? { assert IsPlaceholder(s[..HeadOf(s).len]); }
  }

  lemma {:induction false} AdjacentInTail(s: string, n: nat)
    requires n <= |s| && HasAdjacentPlaceholders(s[n..])
    ensures HasAdjacentPlaceholders(s)
  {
    var t := s[n..];
    var i, j, k :| 0 <= i < j < k <= |t| && IsPlaceholder(t[i..j]) && IsPlaceholder(t[j..k]);
    assert t[i..j] == s[n + i..n + j] && t[j..k] == s[n + j..n + k];
  }

  lemma {:induction false} AdjacentFromTail(s: string, n: nat, i: nat, j: nat, k: nat)
    requires n <= i < j < k <= |s| && IsPlaceholder(s[i..j]) && IsPlaceholder(s[j..k])
    ensures HasAdjacentPlaceholders(s[n..])
  {
    var t := s[n..];
    assert t[i - n..j - n] == s[i..j] && t[j - n..k - n] == s[j..k];
  }

  lemma {:induction false} AdjacentAtFront(s: string, n: nat)
    requires 0 < n <= |s| && IsPlaceholder(s[..n]) && StartsWithPlaceholder(s[n..])
    ensures HasAdjacentPlaceholders(s)
  {
    var k :| 0 < k <= |s[n..]| && IsPlaceholder(s[n..][..k]);
    assert s[0..n] == s[..n] && s[n..n + k] == s[n..][..k];
  }

  lemma {:induction false} AdjacentPairPast(s: string, n: nat, i: nat, j: nat, k: nat)
    requires s != "" && HeadOf(s) == Complete(n)
    requires i < j < k <= |s| && IsPlaceholder(s[i..j]) && IsPlaceholder(s[j..k])
    ensures HasAdjacentPlaceholders(s[n..]) || StartsWithPlaceholder(s[n..])
  {
    assert s[0..n] == s[..n] && s[..j] == s[0..j];
    PlaceholderAt(s, 0, n);
    PlaceholderAt(s, i, j);
    if i == 0 {
      assert s[n..][..k - j] == s[j..k];
    } else {
      AdjacentFromTail(s, n, i, j, k);
    }
  }

  /** After a complete placeholder: another follows at once, or the pair lies further on. */
  lemma {:induction false} AdjacentPastPlaceholder(s: string, n: nat)
    requires s != "" && HeadOf(s) == Complete(n)
    ensures HasAdjacentPlaceholders(s) <==> HasAdjacentPlaceholders(s[n..]) || StartsWithPlaceholder(s[n..])
  {
    if HasAdjacentPlaceholders(s) {
      var i, j, k :| 0 <= i < j < k <= |s| && IsPlaceholder(s[i..j]) && IsPlaceholder(s[j..k]);
      AdjacentPairPast(s, n, i, j, k);
    } else if HasAdjacentPlaceholders(s[n..]) {
      AdjacentInTail(s, n);
    } else if StartsWithPlaceholder(s[n..]) {
      AdjacentAtFront(s, n);
    }
  }

  lemma {:induction false} AdjacentPastCharacter(s: string)
    requires s != "" && !HeadOf(s).Complete?
    ensures HasAdjacentPlaceholders(s) <==> HasAdjacentPlaceholders(s[1..])
  {
    if HasAdjacentPlaceholders(s) {
      var i, j, k :| 0 <= i < j < k <= |s| && IsPlaceholder(s[i..j]) && IsPlaceholder(s[j..k]);
      AdjacentPairLater(s, i, j, k);
    } else if HasAdjacentPlaceholders(s[1..]) {
      AdjacentInTail(s, 1);
    }
  }

  lemma {:induction false} AdjacentPairLater(s: string, i: nat, j: nat, k: nat)
    requires s != "" && !HeadOf(s).Complete?
    requires i < j < k <= |s| && IsPlaceholder(s[i..j]) && IsPlaceholder(s[j..k])
    ensures HasAdjacentPlaceholders(s[1..])
  {
    assert s[..j] == s[0..j];
    AdjacentFromTail(s, 1, i, j, k);
  }

  lemma {:induction false} OpenHasNone(s: string)
    requires s != "" && HeadOf(s).Open?
    ensures !HasPlaceholder(s) && !StartsWithPlaceholder(s[1..])
  {
    assert s[0..] == s;
    OpenText(s, 0);
    forall i, j | 0 <= i < j <= |s| ensures !IsPlaceholder(s[i..j]) {
      if IsPlaceholder(s[i..j]) { PlaceholderAt(s, i, j); }
    }
    assert forall k :: 0 < k <= |s[1..]| ==> s[1..][..k] == s[1..k + 1];
  }

  lemma {:induction false} AdjacentHasPlaceholder(s: string)
    ensures HasAdjacentPlaceholders(s) ==> HasPlaceholder(s)
  {}

  /** Adjacency seen from the front: past the head, or the head followed at once by another. */
  lemma {:induction false} AdjacentByHead(s: string)
    requires s != ""
    ensures HeadOf(s).Complete? ==>
              (HasAdjacentPlaceholders(s) <==>
               var t := s[HeadOf(s).len..]; HasAdjacentPlaceholders(t) || StartsWithPlaceholder(t))
    ensures !HeadOf(s).Complete? ==> (HasAdjacentPlaceholders(s) <==> HasAdjacentPlaceholders(s[1..]))
    ensures HeadOf(s).Open? ==> !HasAdjacentPlaceholders(s) && !StartsWithPlaceholder(s[1..])
  {
    match HeadOf(s)
    case Complete(n) => AdjacentPastPlaceholder(s, n);
    case Open =>
      AdjacentPastCharacter(s);
      OpenHasNone(s);
      AdjacentHasPlaceholder(s);
    case Plain => AdjacentPastCharacter(s);
  }

  lemma {:induction false} TokensFail(s: string, sb: string, previous: bool)
    ensures Tokens(s, sb, previous).Err?
            <==> HasAdjacentPlaceholders(s) || (previous && StartsWithPlaceholder(s))
    decreases |s|
  {
    if s != "" {
      AdjacentByHead(s);
      StartsIffComplete(s);
      match HeadOf(s)
      case Complete(n) => if !previous { TokensFail(s[n..], "", true); }
      case Open => TokensFail(s[1..], sb, previous);
      case Plain => TokensFail(s[1..], sb + [s[0]], false);
    }
  }

  /** Parsing throws exactly when two complete placeholders touch. */
  lemma {:induction false} ParseFailsIff(input: string)
    ensures Parsed(input).Err? <==> HasAdjacentPlaceholders(input)
  {
    TokensFail(input, "", false);
  }

  // ---------------------------------------------------------------- what parsing keeps

  /** The text without the sigil of the placeholder left open at its end, if there is one. */
  function Kept(s: string): (k: string)
    decreases |s|
  {
    if s == "" then ""
    else match HeadOf(s)
      case Complete(n) => s[..n] + Kept(s[n..])
      case Open => Kept(s[1..])
      case Plain => [s[0]] + Kept(s[1..])
  }

  /** No placeholder of `sb + s` starts inside the literal `sb` collected so far. */
  ghost predicate Settled(sb: string, s: string) {
    forall i, j :: 0 <= i < |sb| && i < j <= |sb + s| ==> !IsPlaceholder((sb + s)[i..j])
  }

  lemma {:induction false} SettledHasNone(sb: string, s: string)
    requires Settled(sb, s)
    ensures !HasPlaceholder(sb)
  {
    forall i, j | 0 <= i < j <= |sb| ensures !IsPlaceholder(sb[i..j]) {
      assert (sb + s)[i..j] == sb[i..j];
    }
  }

  lemma {:induction false} SettledPlain(sb: string, s: string)
    requires s != "" && HeadOf(s).Plain? && Settled(sb, s)
    ensures Settled(sb + [s[0]], s[1..])
  {
    var all := sb + s;
    assert (sb + [s[0]]) + s[1..] == all;
    forall i, j | 0 <= i < |sb| + 1 && i < j <= |all| ensures !IsPlaceholder(all[i..j]) {
      if i == |sb| { assert all[i..j] == s[..j - i]; }
    }
  }

  lemma {:induction false} SettledOpen(sb: string, s: string)
    requires s != "" && HeadOf(s).Open? && Settled(sb, s)
    ensures Settled(sb, s[1..])
  {
    var all := sb + s[1..];
    assert s[0..] == s;
    OpenText(s, 0);
    forall i, j | 0 <= i < |sb| && i < j <= |all| ensures !IsPlaceholder(all[i..j]) {
      if j <= |sb| {
        assert all[i..j] == (sb + s)[i..j];
      } else {
        assert all[i..j][j - i - 1] == s[j - |sb|];
      }
    }
  }

  /** The shape of the tokens still to come after the literal `sb`. */
  ghost predicate Shaped(ts: seq<string>, sb: string, previous: bool) {
    && (forall i :: 0 <= i < |ts| && i % 2 == 1 ==> IsPlaceholder(ts[i]))
    && (forall i :: 0 <= i < |ts| && i % 2 == 0 ==> !HasPlaceholder(ts[i]))
    && (forall i :: 0 < i < |ts| && i % 2 == 0 ==> ts[i] != "")
    && ts != [""]
    && ((sb != "" || previous) && ts != [] ==> ts[0] != "")
  }

  lemma {:induction false} TokensKeep(s: string, sb: string, previous: bool)
    requires Settled(sb, s) && Tokens(s, sb, previous).Ok?
    ensures Shaped(Tokens(s, sb, previous).value, sb, previous)
    ensures Concat(Tokens(s, sb, previous).value) == sb + Kept(s)
    decreases |s|
  {
    var ts := Tokens(s, sb, previous).value;
    SettledHasNone(sb, s);
    if s == "" {
      assert sb == "" || (ts == [sb] && ts[1..] == [] && Concat(ts) == sb + Concat([]));
    } else {
      match HeadOf(s)
      case Complete(n) =>
        TokensKeep(s[n..], "", true);
        KeepPlaceholder(sb, s[..n], Tokens(s[n..], "", true).value, Kept(s[n..]));
      case Open =>
        SettledOpen(sb, s);
        TokensKeep(s[1..], sb, previous);
      case Plain =>
        SettledPlain(sb, s);
        TokensKeep(s[1..], sb + [s[0]], false);
        assert sb + [s[0]] + Kept(s[1..]) == sb + ([s[0]] + Kept(s[1..]));
    }
  }

  lemma {:induction false} KeepPlaceholder(sb: string, placeholder: string, rest: seq<string>, kept: string)
    requires !HasPlaceholder(sb) && IsPlaceholder(placeholder) && Shaped(rest, "", true) && Concat(rest) == "" + kept
    ensures Shaped([sb, placeholder] + rest, sb, false)
    ensures Concat([sb, placeholder] + rest) == sb + (placeholder + kept)
  {
    ShapedAfter(sb, placeholder, rest);
    ConcatTwo(sb, placeholder, rest);
  }

  lemma {:induction false} ConcatTwo(a: string, b: string, rest: seq<string>)
    ensures Concat([a, b] + rest) == a + (b + Concat(rest))
  {
    assert ([a, b] + rest)[1..] == [b] + rest && ([b] + rest)[1..] == rest;
  }

  lemma {:induction false} ShapedAfter(sb: string, placeholder: string, rest: seq<string>)
    requires !HasPlaceholder(sb) && IsPlaceholder(placeholder) && Shaped(rest, "", true)
    ensures Shaped([sb, placeholder] + rest, sb, false)
  {
    var ts := [sb, placeholder] + rest;
    forall i | 2 <= i < |ts|
      ensures ts[i] == rest[i - 2] && i % 2 == (i - 2) % 2
    {}
  }

  /** `k` is `s` without the sigil of its open placeholder. */
  ghost predicate IsKept(s: string, k: string) {
    && (forall i :: 0 <= i < |s| && IsOpen(s[i..]) ==> k == s[..i] + s[i + 1..])
    && (!HasOpenTail(s) ==> k == s)
  }

  lemma {:induction false} KeptIs(s: string)
    ensures IsKept(s, Kept(s))
    decreases |s|
  {
    if s != "" {
      assert s[0..] == s;
      match HeadOf(s)
      case Complete(n) =>
        KeptIs(s[n..]);
        NotOpenInside(s, n);
        KeptPast(s, n, Kept(s[n..]));
      case Open =>
        KeptIs(s[1..]);
        OpenOnlyHere(s);
      case Plain =>
        KeptIs(s[1..]);
        KeptPast(s, 1, Kept(s[1..]));
        assert s[..1] == [s[0]];
    }
  }

  /** No placeholder is open from inside a complete one. */
  lemma {:induction false} NotOpenInside(s: string, n: nat)
    requires n <= |s| && n >= 3 && IsPlaceholder(s[..n])
    ensures forall i :: 0 <= i < n ==> !IsOpen(s[i..])
  {
    assert s[0..n] == s[..n];
    PlaceholderAt(s, 0, n);
    forall i | 0 <= i < n ensures !IsOpen(s[i..]) {
      if IsOpen(s[i..]) { OpenText(s, i); }
    }
  }

  /** A placeholder open from the start leaves letters only: nothing is open after it. */
  lemma {:induction false} OpenOnlyHere(s: string)
    requires s != "" && IsOpen(s) && IsKept(s[1..], Kept(s[1..]))
    ensures IsKept(s, Kept(s[1..]))
  {
    assert s[0..] == s;
    OpenText(s, 0);
    forall i | 0 <= i < |s| ensures IsOpen(s[i..]) ==> i == 0 {
      if IsOpen(s[i..]) { OpenText(s, i); }
    }
    forall i | 0 <= i < |s[1..]| ensures !IsOpen(s[1..][i..]) {
      assert s[1..][i..] == s[i + 1..];
    }
    assert s[..0] + s[1..] == s[1..];
    assert HasOpenTail(s);
  }

  lemma {:induction false} KeptPast(s: string, n: nat, k: string)
    requires 0 < n <= |s|
    requires forall i :: 0 <= i < n ==> !IsOpen(s[i..])
    requires IsKept(s[n..], k)
    ensures IsKept(s, s[..n] + k)
  {
    var t := s[n..];
    forall i | 0 <= i < |s| && IsOpen(s[i..])
      ensures s[..n] + k == s[..i] + s[i + 1..]
    {
      assert t[i - n..] == s[i..];
      CutInTail(s, n, i);
    }
    if !HasOpenTail(s) { OpenTailOfTail(s, n); }
  }

  lemma {:induction false} CutInTail(s: string, n: nat, i: nat)
    requires n <= i < |s|
    ensures s[..n] + (s[n..][..i - n] + s[n..][i - n + 1..]) == s[..i] + s[i + 1..]
  {}

  lemma {:induction false} OpenTailOfTail(s: string, n: nat)
    requires n <= |s| && !HasOpenTail(s)
    ensures !HasOpenTail(s[n..]) && s == s[..n] + s[n..]
  {
    var t := s[n..];
    forall i | 0 <= i < |t| ensures !IsOpen(t[i..]) { assert t[i..] == s[n + i..]; }
  }

  /**
   * A parsed template is canonical, and concatenating it gives the input back, except that an
   * input whose last placeholder is left open loses the sigil of that placeholder.
   */
  lemma {:induction false} ParseKeepsText(input: string)
    requires Parsed(input).Ok?
    ensures IsCanonical(Parsed(input).value)
    ensures Concat(Parsed(input).value) == input <==> !HasOpenTail(input)
    ensures forall i :: 0 <= i < |input| && IsOpen(input[i..])
                        ==> Concat(Parsed(input).value) == input[..i] + input[i + 1..]
  {
    assert "" + Kept(input) == Kept(input);
    TokensKeep(input, "", false);
    KeptIs(input);
    if HasOpenTail(input) {
      var i :| 0 <= i < |input| && IsOpen(input[i..]);
      assert Kept(input) == input[..i] + input[i + 1..];
    }
  }

  // ---------------------------------------------------------------- parsing undoes concatenation

  /** What may follow a literal: the end of the text, or the sigil of a placeholder. */
  predicate Follows(lit: string, r: string) {
    if r == "" then !HasOpenTail(lit) else IsSigil(r[0])
  }

  lemma {:induction false} LiteralHead(lit: string, r: string)
    requires lit != "" && !HasPlaceholder(lit) && Follows(lit, r)
    ensures HeadOf(lit + r).Plain?
  {
    var s := lit + r;
    assert r != "" ==> s[|lit|] == r[0];
    forall n | 3 <= n <= |s| ensures !IsPlaceholder(s[..n]) {
      assert s[..n] == s[0..n];
      if n <= |lit| {
        assert s[..n] == lit[0..n];
      } else if IsPlaceholder(s[0..n]) {
        PlaceholderAt(s, 0, n);
      }
    }
    assert s[0..] == s && lit[0..] == lit;
    assert r == "" ==> s == lit;
    if IsOpen(s[0..]) { OpenText(s, 0); }
  }

  lemma {:induction false} TailKeepsLiteral(lit: string, r: string)
    requires lit != "" && !HasPlaceholder(lit) && Follows(lit, r)
    ensures !HasPlaceholder(lit[1..]) && Follows(lit[1..], r)
  {
    forall i, j | 0 <= i < j <= |lit[1..]| ensures !IsPlaceholder(lit[1..][i..j]) {
      assert lit[1..][i..j] == lit[i + 1..j + 1];
    }
    if r == "" { OpenTailOfTail(lit, 1); }
  }

  lemma {:induction false} TokensOfLiteral(lit: string, r: string, sb: string, previous: bool)
    requires !HasPlaceholder(lit) && Follows(lit, r)
    ensures Tokens(lit + r, sb, previous) == Tokens(r, sb + lit, if lit == "" then previous else false)
    decreases |lit|
  {
    if lit == "" {
      assert lit + r == r && sb + lit == sb;
    } else {
      LiteralHead(lit, r);
      TailKeepsLiteral(lit, r);
      TokensOfLiteral(lit[1..], r, sb + [lit[0]], false);
      assert (lit + r)[1..] == lit[1..] + r;
      assert sb + [lit[0]] + lit[1..] == sb + lit;
    }
  }

  lemma {:induction false} TokensOfPlaceholder(p: string, r: string, sb: string)
    requires IsPlaceholder(p)
    ensures Tokens(p + r, sb, false) == Prepend([sb, p], Tokens(r, "", true))
  {
    var s := p + r;
    assert s[..|p|] == p && s[|p|..] == r;
  }

  predicate LastIsClosed(ts: seq<string>) { |ts| % 2 == 1 ==> !HasOpenTail(ts[|ts| - 1]) }

  lemma {:induction false} TokensOfPair(lit: string, p: string, rest: string, previous: bool)
    requires !HasPlaceholder(lit) && IsPlaceholder(p) && (previous ==> lit != "")
    ensures Tokens(lit + (p + rest), "", previous) == Prepend([lit, p], Tokens(rest, "", true))
  {
    TokensOfLiteral(lit, p + rest, "", previous);
    assert "" + lit == lit;
    TokensOfPlaceholder(p, rest, lit);
  }

  lemma {:induction false} TokensOfOne(lit: string, previous: bool)
    requires !HasPlaceholder(lit) && !HasOpenTail(lit) && lit != ""
    ensures Tokens(lit, "", previous) == Ok([lit])
  {
    TokensOfLiteral(lit, "", "", previous);
    assert "" + lit == lit && lit + "" == lit;
  }

  lemma {:induction false} ConcatOne(lit: string)
    ensures Concat([lit]) == lit
  {
    assert [lit][1..] == [] && lit + "" == lit;
  }

  lemma {:induction false} TokensOfList(ts: seq<string>, previous: bool)
    requires IsCanonical(ts) && (previous && ts != [] ==> ts[0] != "") && LastIsClosed(ts)
    ensures Tokens(Concat(ts), "", previous) == Ok(ts)
    decreases |ts|
  {
    if |ts| == 1 {
      assert ts == [ts[0]];
      ConcatOne(ts[0]);
      TokensOfOne(ts[0], previous);
    } else if ts != [] {
      var rest := ts[2..];
      assert ts == [ts[0], ts[1]] + rest;
      ConcatTwo(ts[0], ts[1], rest);
      TokensOfPair(ts[0], ts[1], Concat(rest), previous);
      CanonicalRest(ts);
      TokensOfList(rest, true);
    }
  }

  lemma {:induction false} CanonicalRest(ts: seq<string>)
    requires |ts| >= 2 && IsCanonical(ts)
    ensures IsCanonical(ts[2..]) && (ts[2..] != [] ==> ts[2..][0] != "")
    ensures LastIsClosed(ts) ==> LastIsClosed(ts[2..])
  {
    var rest := ts[2..];
    forall i | 0 <= i < |rest| ensures rest[i] == ts[i + 2] && i % 2 == (i + 2) % 2 {}
  }

  /** The fixed points: exactly the canonical lists whose closing literal leaves nothing open. */
  lemma {:induction false} ParseOfConcat(ts: seq<string>)
    ensures Parsed(Concat(ts)) == Ok(ts)
            <==> IsCanonical(ts) && LastIsClosed(ts)
  {
    if IsCanonical(ts) && LastIsClosed(ts) {
      TokensOfList(ts, false);
    }
    if Parsed(Concat(ts)) == Ok(ts) {
      ParseKeepsText(Concat(ts));
      if |ts| % 2 == 1 { LastLiteralOpens(ts); }
    }
  }

  lemma {:induction false} LastLiteralOpens(ts: seq<string>)
    requires ts != []
    ensures HasOpenTail(ts[|ts| - 1]) ==> HasOpenTail(Concat(ts))
  {
    var front, last := ts[..|ts| - 1], ts[|ts| - 1];
    assert ts == front + [last];
    ConcatOne(last);
    ConcatAppend(front, [last]);
    if HasOpenTail(last) { OpenTailAfter(Concat(front), last); }
  }

  lemma {:induction false} OpenTailAfter(before: string, s: string)
    requires HasOpenTail(s)
    ensures HasOpenTail(before + s)
  {
    var i :| 0 <= i < |s| && IsOpen(s[i..]);
    assert (before + s)[|before| + i..] == s[i..];
  }
}
