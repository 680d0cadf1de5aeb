/** How well the tags of a recorded line fit those of a request, `BasicReplayPlugin.tagsMatching`. */
module Tags {
  import opened Wrappers
  import opened Text

  /** One tag of the query agrees with the line's: both null, or equal up to case. */
  predicate TagAgrees(tags: map<string, Option<string>>, query: map<string, Option<string>>, key: string)
    requires key in query
  {
    && key in tags
    && match (tags[key], query[key]) {
         case (None, None) => true
         case (Some(l), Some(r)) => EqualsIgnoreCase(l, r)
         case _ => false
       }
  }

  function Agreeing(tags: map<string, Option<string>>, query: map<string, Option<string>>, keys: set<string>): set<string> {
    set k | k in keys && k in query && TagAgrees(tags, query, k)
  }

  function Score(tags: map<string, Option<string>>, query: map<string, Option<string>>): nat {
    |Agreeing(tags, query, query.Keys)|
  }

  lemma {:induction false} AgreeingGrows(tags: map<string, Option<string>>, query: map<string, Option<string>>, keys: set<string>, key: string)
    requires key in query && key !in keys
    ensures |Agreeing(tags, query, keys + {key})|
            == |Agreeing(tags, query, keys)| + if TagAgrees(tags, query, key) then 1 else 0
  {
    assert Agreeing(tags, query, keys + {key})
           == Agreeing(tags, query, keys) + if TagAgrees(tags, query, key) then {key} else {};
  }

  /** The loop over the entries of the query. */
  method TagsMatching(tags: map<string, Option<string>>, query: map<string, Option<string>>) returns (result: nat)
    ensures result == Score(tags, query)
    ensures result == |set key | key in query && key in tags
                                 && ((tags[key].None? && query[key].None?)
                                     || (tags[key].Some? && query[key].Some? && EqualsIgnoreCase(tags[key].value, query[key].value)))|
  {
    result := 0;
    var left := query.Keys;
    ghost var done: set<string> := {};
    while left != {}
      invariant done !! left && done + left == query.Keys
      invariant result == |Agreeing(tags, query, done)|
      decreases left
    {
      var key :| key in left;
      AgreeingGrows(tags, query, done, key);
      if key in tags {
        var l, r := tags[key], query[key];
        if (l.None? || r.None?) && l == r {
          result := result + 1;
        } else if l.Some? && r.Some? && EqualsIgnoreCase(l.value, r.value) {
          result := result + 1;
        }
      }
      left := left - {key};
      done := done + {key};
    }
    assert done == query.Keys;
    AgreeingIs(tags, query);
  }

  lemma {:induction false} AgreeingIs(tags: map<string, Option<string>>, query: map<string, Option<string>>)
    ensures Agreeing(tags, query, query.Keys)
            == set key | key in query && key in tags
                         && ((tags[key].None? && query[key].None?)
                             || (tags[key].Some? && query[key].Some? && EqualsIgnoreCase(tags[key].value, query[key].value)))
  {}

  /** Some tag of both is null in both, or of the same value up to case. */
  predicate HaveCommonTag(tags: map<string, Option<string>>, query: map<string, Option<string>>) {
    exists key :: key in query && key in tags
                  && ((tags[key].None? && query[key].None?)
                      || (tags[key].Some? && query[key].Some? && EqualsIgnoreCase(tags[key].value, query[key].value)))
  }

  /** Every tag of the query is a tag of the line, null in both or of the same value up to case. */
  predicate AgreeOnAll(tags: map<string, Option<string>>, query: map<string, Option<string>>) {
    forall key :: key in query ==>
      && key in tags
      && ((tags[key].None? && query[key].None?)
          || (tags[key].Some? && query[key].Some? && EqualsIgnoreCase(tags[key].value, query[key].value)))
  }

  lemma {:induction false} ScoreIsPositiveIff(tags: map<string, Option<string>>, query: map<string, Option<string>>)
    ensures Score(tags, query) > 0 <==> HaveCommonTag(tags, query)
  {
    var agreeing := Agreeing(tags, query, query.Keys);
    if agreeing != {} {
      var key :| key in agreeing;
      assert key in query && TagAgrees(tags, query, key);
    }
    if HaveCommonTag(tags, query) {
      var key :| key in query && key in tags
                 && ((tags[key].None? && query[key].None?)
                     || (tags[key].Some? && query[key].Some? && EqualsIgnoreCase(tags[key].value, query[key].value)));
      assert key in agreeing;
    }
  }

  lemma {:induction false} SubsetIsSmaller(a: set<string>, b: set<string>)
    requires a <= b
    ensures |a| <= |b|
    ensures a != b ==> |a| < |b|
    decreases |a|
  {
    if a != {} {
      var x :| x in a;
      SubsetIsSmaller(a - {x}, b - {x});
      assert a == a - {x} + {x} && b == b - {x} + {x};
    } else if b != {} {
      assert |b| > 0;
    }
  }

  /** The score counts at most all tags of the query, and all of them exactly when all agree. */
  lemma {:induction false} ScoreIsFullIff(tags: map<string, Option<string>>, query: map<string, Option<string>>)
    ensures Score(tags, query) <= |query.Keys|
    ensures Score(tags, query) == |query.Keys| <==> AgreeOnAll(tags, query)
  {
    var agreeing := Agreeing(tags, query, query.Keys);
    SubsetIsSmaller(agreeing, query.Keys);
    if agreeing == query.Keys {
      forall key | key in query ensures key in tags && TagAgrees(tags, query, key) { assert key in agreeing; }
    }
    if AgreeOnAll(tags, query) {
      forall key | key in query ensures key in agreeing {}
      assert agreeing == query.Keys;
    }
  }
}
