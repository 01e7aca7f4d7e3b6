/** `standardize_method_name`: the ordered keyword classifier that maps the
    method name an analysis reports to a common label. */
module MethodNames {
  import opened Common
  import opened Text

  /** The labels the classifier returns; `NaN` is `np.nan`. */
  datatype Label = NaN | Ps | Fd | Rdd | Did | Glm | Ols | Iv | Other

  /** A value read with `.get(key, np.nan)`: `Missing` is the `np.nan`
      default, `Val` a value that was present. */
  datatype Cell = Missing | Val(v: Value)

  /** One branch of the `if`/`elif` chain: the keywords it tests with `in`
      and the label it returns. */
  datatype Rule = Rule(keywords: seq<string>, gives: Label)

  /** The branches in the order the chain tests them. */
  const RULES: seq<Rule> := [
    Rule(["weighting", "ipw", "propensity"], Ps),
    Rule(["front", "frontdoor"], Fd),
    Rule(["discontinuity", "fuzzy", "rdd"], Rdd),
    Rule(["in-difference", "did", "in-diff", "fixed effects", "panel"], Did),
    Rule(["matching", "observational"], Ps),
    Rule(["logistic", "probit", "logit", "glm"], Glm),
    Rule(["linear", "means", "ordinary", "rct", "ols", "wls"], Ols),
    Rule(["instrument", "encouragement", "2sls", "iv"], Iv),
    Rule(["null", "na", "n/a", "none"], NaN)
  ]

  /** `k1 in s or k2 in s or ...`. */
  predicate AnyIn(s: string, keywords: seq<string>)
    decreases |keywords|
  {
    keywords != [] && (Contains(s, keywords[0]) || AnyIn(s, keywords[1..]))
  }

  /** The chain over `rules`: the label of the first branch one of whose
      keywords occurs in `s`, `Other` when none does. */
  function Classify(s: string, rules: seq<Rule>): Label
    decreases |rules|
  {
    if rules == [] then Other
    else if AnyIn(s, rules[0].keywords) then rules[0].gives
    else Classify(s, rules[1..])
  }

  /** `standardize_method_name(name)`: `None` and every value that is not
      a string give `NaN`; a string is lower-cased and classified. */
  function StandardizeMethodName(name: Cell): Label {
    match name
    case Val(Str(s)) => Classify(Lower(s), RULES)
    case _ => NaN
  }

  /** Branch `i` is the one taken for `s`: one of its keywords occurs and
      none of an earlier branch does. */
  predicate FirstMatchAt(s: string, rules: seq<Rule>, i: int) {
    0 <= i < |rules| && AnyIn(s, rules[i].keywords)
    && forall j :: 0 <= j < i ==> !AnyIn(s, rules[j].keywords)
  }

  predicate NoMatch(s: string, rules: seq<Rule>) {
    forall j :: 0 <= j < |rules| ==> !AnyIn(s, rules[j].keywords)
  }

  /** `AnyIn` is a disjunction of substring tests. */
  lemma {:induction false} AnyInIff(s: string, keywords: seq<string>)
    ensures AnyIn(s, keywords) <==> exists k :: 0 <= k < |keywords| && Contains(s, keywords[k])
    decreases |keywords|
  {
    if keywords != [] {
      AnyInIff(s, keywords[1..]);
      if AnyIn(s, keywords[1..]) {
        var k :| 0 <= k < |keywords[1..]| && Contains(s, keywords[1..][k]);
        assert Contains(s, keywords[k + 1]);
      }
      if exists k :: 0 <= k < |keywords| && Contains(s, keywords[k]) {
        var k :| 0 <= k < |keywords| && Contains(s, keywords[k]);
        if k > 0 {
          assert keywords[k] == keywords[1..][k - 1];
        }
      }
    }
  }

  /** The first branch that matches decides. */
  lemma {:induction false} ClassifyFirstMatch(s: string, rules: seq<Rule>, i: int)
    requires FirstMatchAt(s, rules, i)
    ensures Classify(s, rules) == rules[i].gives
    decreases |rules|
  {
    if i > 0 {
      assert !AnyIn(s, rules[0].keywords);
      assert FirstMatchAt(s, rules[1..], i - 1) by {
        forall j | 0 <= j < i - 1
          ensures !AnyIn(s, rules[1..][j].keywords)
        {
          assert rules[1..][j] == rules[j + 1];
        }
      }
      ClassifyFirstMatch(s, rules[1..], i - 1);
    }
  }

  /** Without a matching branch the chain falls through to `Other`. */
  lemma {:induction false} ClassifyNoMatch(s: string, rules: seq<Rule>)
    requires NoMatch(s, rules)
    ensures Classify(s, rules) == Other
    decreases |rules|
  {
    if rules != [] {
      assert !AnyIn(s, rules[0].keywords);
      assert NoMatch(s, rules[1..]) by {
        forall j | 0 <= j < |rules| - 1
          ensures !AnyIn(s, rules[1..][j].keywords)
        {
          assert rules[1..][j] == rules[j + 1];
        }
      }
      ClassifyNoMatch(s, rules[1..]);
    }
  }

  /** Either some branch is the first to match, or none matches. */
  lemma {:induction false} FirstMatchOrNone(s: string, rules: seq<Rule>)
    ensures NoMatch(s, rules) || exists i :: FirstMatchAt(s, rules, i)
    decreases |rules|
  {
    if rules != [] && !AnyIn(s, rules[0].keywords) {
      FirstMatchOrNone(s, rules[1..]);
      if exists i :: FirstMatchAt(s, rules[1..], i) {
        var i :| FirstMatchAt(s, rules[1..], i);
        forall j | 0 <= j < i + 1
          ensures !AnyIn(s, rules[j].keywords)
        {
          if j > 0 {
            assert rules[j] == rules[1..][j - 1];
          }
        }
        assert FirstMatchAt(s, rules, i + 1);
      } else {
        forall j | 0 <= j < |rules|
          ensures !AnyIn(s, rules[j].keywords)
        {
          if j > 0 {
            assert rules[j] == rules[1..][j - 1];
          }
        }
      }
    } else if rules != [] {
      assert FirstMatchAt(s, rules, 0);
    }
  }

  /** The chain returns `l` exactly when the first matching branch returns
      `l`, or when no branch matches and `l` is `Other`. */
  lemma ClassifyIff(s: string, rules: seq<Rule>, l: Label)
    ensures Classify(s, rules) == l
            <==> (exists i :: FirstMatchAt(s, rules, i) && rules[i].gives == l) || (NoMatch(s, rules) && l == Other)
  {
    FirstMatchOrNone(s, rules);
    if exists i :: FirstMatchAt(s, rules, i) {
      var i :| FirstMatchAt(s, rules, i);
      ClassifyFirstMatch(s, rules, i);
      assert !NoMatch(s, rules);
    } else {
      ClassifyNoMatch(s, rules);
    }
  }

  /** `None` and every non-string value map to `NaN`. */
  lemma NonStringIsNaN(name: Cell)
    requires !(name.Val? && name.v.Str?)
    ensures StandardizeMethodName(name) == NaN
  {
  }

  /** Names that agree letter by letter up to ASCII case get the same label. */
  lemma CaseInsensitive(s: string, t: string)
    requires |s| == |t|
    requires forall i :: 0 <= i < |s| ==> LowerChar(s[i]) == LowerChar(t[i])
    ensures StandardizeMethodName(Val(Str(s))) == StandardizeMethodName(Val(Str(t)))
  {
    assert Lower(s) == Lower(t);
  }

  /** Lower-casing first does not change the label. */
  lemma LowerFirst(s: string)
    ensures StandardizeMethodName(Val(Str(Lower(s)))) == StandardizeMethodName(Val(Str(s)))
  {
    assert Lower(Lower(s)) == Lower(s);
  }

  /** A name mentioning weighting, ipw or propensity is `ps`, whatever else
      it mentions. */
  lemma WeightingWins(s: string)
    requires Contains(Lower(s), "weighting") || Contains(Lower(s), "ipw") || Contains(Lower(s), "propensity")
    ensures StandardizeMethodName(Val(Str(s))) == Ps
  {
    AnyInIff(Lower(s), RULES[0].keywords);
    assert FirstMatchAt(Lower(s), RULES, 0);
    ClassifyFirstMatch(Lower(s), RULES, 0);
  }

  /** When branch `k` is the only one returning `l`, and `l` is not the
      fall-through label, the chain returns `l` exactly when branch `k` is
      the first to match. */
  lemma ClassifyGives(s: string, rules: seq<Rule>, l: Label, k: int)
    requires 0 <= k < |rules| && rules[k].gives == l && l != Other
    requires forall i :: 0 <= i < |rules| && i != k ==> rules[i].gives != l
    ensures Classify(s, rules) == l <==> FirstMatchAt(s, rules, k)
  {
    ClassifyIff(s, rules, l);
  }

  /** The same for a label returned by exactly two branches. */
  lemma ClassifyGivesTwo(s: string, rules: seq<Rule>, l: Label, k1: int, k2: int)
    requires 0 <= k1 < |rules| && 0 <= k2 < |rules| && rules[k1].gives == l && rules[k2].gives == l && l != Other
    requires forall i :: 0 <= i < |rules| && i != k1 && i != k2 ==> rules[i].gives != l
    ensures Classify(s, rules) == l <==> FirstMatchAt(s, rules, k1) || FirstMatchAt(s, rules, k2)
  {
    ClassifyIff(s, rules, l);
  }

  /** When no branch returns `Other`, the chain returns it exactly when no
      branch matches. */
  lemma ClassifyOther(s: string, rules: seq<Rule>)
    requires forall i :: 0 <= i < |rules| ==> rules[i].gives != Other
    ensures Classify(s, rules) == Other <==> NoMatch(s, rules)
  {
    ClassifyIff(s, rules, Other);
  }

  /** A string is `ps` exactly when the first branch matches, or when none
      of the four branches before the matching/observational one does and
      that one matches. */
  lemma PsIff(s: string)
    ensures StandardizeMethodName(Val(Str(s))) == Ps <==> FirstMatchAt(Lower(s), RULES, 0) || FirstMatchAt(Lower(s), RULES, 4)
  {
    ClassifyGivesTwo(Lower(s), RULES, Ps, 0, 4);
  }

  /** A string is `NaN` only through the last branch: none of the eight
      branches before it matches and one of its keywords occurs. */
  lemma NaNIff(s: string)
    ensures StandardizeMethodName(Val(Str(s))) == NaN <==> FirstMatchAt(Lower(s), RULES, 8)
  {
    ClassifyGives(Lower(s), RULES, NaN, 8);
  }

  /** A string is `other` exactly when no branch matches. */
  lemma OtherIff(s: string)
    ensures StandardizeMethodName(Val(Str(s))) == Other <==> NoMatch(Lower(s), RULES)
  {
    ClassifyOther(Lower(s), RULES);
  }
}
