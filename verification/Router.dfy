/** The router's numbering of rules and its slash redirects, over the trie. */
module Router {
  import opened Common
  import opened RoutingTypes
  import opened TrieModel
  import opened TrieRules
  import opened RuleMeaning
  import Trie

  const RULE_SPECIAL_REDIRECT_SLASH := 1

  /** Only the redirect index is shared; every other index belongs to one rule. */
  ghost predicate IndicesUnique(rules: RuleTable) {
    forall r, s :: r in rules && s in rules && rules[r] == rules[s] && rules[r] >= 2 ==> r == s
  }

  /** The answer is unique, and for a handler's index the captures are those of the handler's own rule. */
  lemma AnswerIsUnique(lib: Libc, rules: RuleTable, url: string, f: Found, g: Found, r: seq<Token>)
    requires IndicesUnique(rules) && Answers(lib, rules, url, f) && Answers(lib, rules, url, g)
    ensures f.rule == g.rule
    ensures f.rule != RULE_SPECIAL_REDIRECT_SLASH ==> f == g
    ensures r in rules && rules[r] == f.rule >= 2 ==> Run(lib, r, url, 0, NO_PARAMS) == Some(f.params)
  {
    if f.rule > 0 {
      var a :| a in rules && rules[a] == f.rule && Run(lib, a, url, 0, NO_PARAMS) == Some(f.params);
      assert Matches(lib, a, url);
      assert g.rule > 0;
    }
    if g.rule > 0 {
      var b :| b in rules && rules[b] == g.rule && Run(lib, b, url, 0, NO_PARAMS) == Some(g.params);
      assert Matches(lib, b, url);
      assert f.rule > 0;
    }
  }

  /** Dropping a trailing slash from a well-formed rule drops exactly its last token. */
  lemma {:induction false} TrailingSlash(rule: string, i: nat)
    requires |rule| > 0 && rule[|rule| - 1] == '/' && i < |rule| && WellFormed(rule, i)
    ensures WellFormed(rule[..|rule| - 1], i)
    ensures Tokens(rule, i) == Tokens(rule[..|rule| - 1], i) + [Lit('/')]
    decreases |rule| - i
  {
    hide TagAt;
    hide TagLength;
    var n := |rule| - 1;
    if i == n {
      assert Tokens(rule, i) == [Lit('/')] + Tokens(rule, n + 1);
    } else if rule[i] == '<' {
      TagInPrefix(rule, i);
      TrailingSlash(rule, i + TagLength(rule, i));
    } else {
      TrailingSlash(rule, i + 1);
    }
  }

  lemma StartsInPrefix(rule: string, n: nat, i: nat, w: string)
    requires n <= |rule|
    ensures StartsAt(rule[..n], i, w) <==> StartsAt(rule, i, w) && i + |w| <= n
  {
    if i + |w| <= n { assert rule[..n][i..i + |w|] == rule[i..i + |w|]; }
  }

  lemma {:induction false} TraitInPrefix(rule: string, n: nat, i: nat, m: nat)
    requires n <= |rule| && m <= |PARAM_TRAITS|
    requires TraitFrom(rule, i, m).Some? && i + |TraitFrom(rule, i, m).value.name| <= n
    ensures TraitFrom(rule[..n], i, m) == TraitFrom(rule, i, m)
    decreases |PARAM_TRAITS| - m
  {
    if m < |PARAM_TRAITS| {
      StartsInPrefix(rule, n, i, PARAM_TRAITS[m].name);
      if !StartsAt(rule, i, PARAM_TRAITS[m].name) { TraitInPrefix(rule, n, i, m + 1); }
    }
  }

  /** A tag does not reach into a trailing slash. */
  lemma TagInPrefix(rule: string, i: nat)
    requires |rule| > 0 && rule[|rule| - 1] == '/' && TagAt(rule, i).Some?
    ensures var n := |rule| - 1;
            && i + TagLength(rule, i) <= n && TagAt(rule[..n], i) == TagAt(rule, i)
            && TagLength(rule[..n], i) == TagLength(rule, i)
  {
    hide TraitFrom;
    var len := TagLength(rule, i);
    assert rule[i + len - 1] == rule[i..i + len][len - 1] == '>';
    TraitInPrefix(rule, |rule| - 1, i, 0);
  }

  ghost predicate Numbered(rules: RuleTable, count: nat) {
    IndicesUnique(rules) && forall r :: r in rules ==> 1 <= rules[r] < count
  }

  lemma NumberedNext(rules: RuleTable, count: nat, rule: seq<Token>)
    requires Numbered(rules, count) && count >= 2
    ensures Numbered(rules, count + 1) && Numbered(rules[rule := count], count + 1)
  {}

  lemma NumberedRedirect(rules: RuleTable, count: nat, rule: seq<Token>)
    requires Numbered(rules, count) && count >= 2
    ensures Numbered(rules[rule := RULE_SPECIAL_REDIRECT_SLASH], count)
  {}

  /** What registering a rule does to the table: success, and the table afterwards. */
  ghost function Registered(rules: RuleTable, rule: seq<Token>, index: nat, redirect: bool): (bool, RuleTable) {
    if rule in rules then (false, rules)
    else if redirect && rule != [] then
      var bare := rule[..|rule| - 1];
      if bare in rules then (false, rules[rule := index])
      else (true, rules[rule := index][bare := RULE_SPECIAL_REDIRECT_SLASH])
    else (true, rules[rule := index])
  }

  /** A new rule takes its index, one ending in a slash makes the rule without it a redirect (index 1) unless it was there, and no other rule changes. */
  lemma RegisteredAdds(rules: RuleTable, rule: seq<Token>, index: nat, redirect: bool, other: seq<Token>)
    requires redirect ==> rule != []
    ensures var (ok, after) := Registered(rules, rule, index, redirect);
            && (rule in rules ==> !ok && after == rules)
            && (rule !in rules ==> rule in after && after[rule] == index && (ok <==> redirect ==> rule[..|rule| - 1] !in rules))
            && (rule !in rules && redirect ==>
                  var bare := rule[..|rule| - 1]; bare in after && after[bare] == if bare in rules then rules[bare] else 1)
            && (other != rule && (redirect ==> other != rule[..|rule| - 1]) ==>
                  (other in after <==> other in rules) && (other in rules ==> after[other] == rules[other]))
  {
    if redirect { assert |rule[..|rule| - 1]| < |rule|; }
  }

  // ----- where redirects lead -----

  lemma {:induction false} HolesJoin(a: seq<Token>, b: seq<Token>)
    ensures Holes(a + b) == Holes(a) + Holes(b)
    decreases |a|
  {
    if a == [] { assert a + b == b; } else { assert (a + b)[1..] == a[1..] + b; HolesJoin(a[1..], b); }
  }

  /** A filled rule with a slash more. */
  lemma {:induction false} SlashMore(bare: seq<Token>, texts: seq<string>)
    requires IsTextRule(bare) && |texts| == Holes(bare)
    ensures var rule := bare + [Lit('/')];
            && IsTextRule(rule) && |texts| == Holes(rule) && Insert(rule, texts) == Insert(bare, texts) + "/"
            && (GoodTexts(bare, texts) ==> (GoodTexts(rule, texts) <==> Param(PATH) !in bare))
    decreases |bare|
  {
    var rule := bare + [Lit('/')];
    HolesJoin(bare, [Lit('/')]);
    assert Holes([Lit('/')]) == 0;
    if bare == [] {
      assert rule == [Lit('/')] && rule[1..] == [];
    } else {
      assert rule[1..] == bare[1..] + [Lit('/')] && bare == [bare[0]] + bare[1..];
      match bare[0] {
        case Lit(_) => SlashMore(bare[1..], texts);
        case Param(_) => SlashMore(bare[1..], texts[1..]);
      }
    }
  }

  /**
   * A redirect sends a URL that matches the rule without its slash to that URL with a slash. This meets the rule, with
   * the same captures, if and only if the rule has no path parameter; with one, the rule is met by no URL at all.
   */
  lemma RedirectArrives(lib: Libc, bare: seq<Token>, url: string)
    requires IsTextRule(bare) && Matches(lib, bare, url)
    ensures var rule := bare + [Lit('/')];
            && (Matches(lib, rule, url + "/") <==> Param(PATH) !in bare)
            && (Param(PATH) !in bare ==> Run(lib, rule, url + "/", 0, NO_PARAMS) == Run(lib, bare, url, 0, NO_PARAMS))
  {
    var rule := bare + [Lit('/')];
    CapturesGiveUrl(lib, bare, url);
    var texts := Run(lib, bare, url, 0, NO_PARAMS).value.strings;
    SlashMore(bare, texts);
    if Param(PATH) !in bare {
      WrittenUrlMatches(lib, rule, texts);
    } else {
      PathIsLast(lib, bare, url + "/");
    }
  }

  lemma {:induction false} PathTexts(bare: seq<Token>, texts: seq<string>)
    requires IsTextRule(bare) && Param(PATH) in bare && |texts| == Holes(bare + [Lit('/')])
    ensures IsTextRule(bare + [Lit('/')]) && !GoodTexts(bare + [Lit('/')], texts)
    decreases |bare|
  {
    var rule := bare + [Lit('/')];
    HolesJoin(bare, [Lit('/')]);
    assert rule[1..] == bare[1..] + [Lit('/')] && bare == [bare[0]] + bare[1..];
    match bare[0] {
      case Lit(_) => PathTexts(bare[1..], texts);
      case Param(t) =>
        HolesJoin(bare[1..], [Lit('/')]);
        SlashMore(bare[1..], texts[1..]);
        if t != PATH { PathTexts(bare[1..], texts[1..]); }
    }
  }

  /** Nothing can stand behind a path. */
  lemma PathIsLast(lib: Libc, bare: seq<Token>, url: string)
    requires IsTextRule(bare) && Param(PATH) in bare
    ensures !Matches(lib, bare + [Lit('/')], url)
  {
    var rule := bare + [Lit('/')];
    if Matches(lib, rule, url) {
      CapturesGiveUrl(lib, rule, url);
      PathTexts(bare, Run(lib, rule, url, 0, NO_PARAMS).value.strings);
    }
  }

  class Router {
    const trie: Trie.Trie
    var count: nat  // the length of the rule vector, whose first two slots are reserved

    ghost predicate Valid()
      reads this, trie
    {
      && trie.Building() && count >= 2
      && Numbered(trie.rules, count)
    }

    constructor (lib: Libc)
      ensures Valid() && trie.rules == map[] && fresh(trie) && trie.lib == lib
    {
      trie := new Trie.Trie(lib);
      count := 2;
    }

    /** `internal_add_rule_object`: a rule takes the next index; a rule ending in `/` also redirects from the
        form without it. The slot is taken even when the trie refuses. */
    method AddRule(rule: string) returns (ok: bool)
      requires Valid() && WellFormed(rule, 0)
      modifies this`count, trie
      ensures Valid() && count == old(count) + 1
      ensures var redirect := |rule| > 1 && rule[|rule| - 1] == '/';
              (ok, trie.rules) == Registered(old(trie.rules), Tokens(rule, 0), old(count), redirect)
    {
      hide Shape;
      hide Holds;
      hide Paths;
      hide Unmerged;
      hide TraitFrom;
      hide IndicesUnique;
      hide Numbered;
      ghost var toks := Tokens(rule, 0);
      NumberedNext(trie.rules, count, toks);
      count := count + 1;
      ok := trie.Add(rule, count - 1);
      if !ok {
        return;
      }
      if |rule| > 1 && rule[|rule| - 1] == '/' {
        TrailingSlash(rule, 0);
        assert Tokens(rule[..|rule| - 1], 0) == toks[..|toks| - 1];
        NumberedRedirect(trie.rules, count, toks[..|toks| - 1]);
        ok := trie.Add(rule[..|rule| - 1], RULE_SPECIAL_REDIRECT_SLASH);
      }
    }
  }
}
