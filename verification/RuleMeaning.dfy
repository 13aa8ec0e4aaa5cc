/** What it means for a URL to match a rule, without the search: the URL is the rule with its parameters filled in. */
module RuleMeaning {
  import opened Common
  import opened RoutingTypes
  import opened TrieModel
  import opened TrieRules

  /** What a parameter takes from a URL: its text, and the value handed over. */
  datatype Taken = Taken(text: string, cap: Capture)

  /** Parameter `t` takes `b` at `pos`. A number is what the C library reads there, behind a character that can start it. */
  predicate Takes(lib: Libc, t: ParamType, url: string, pos: nat, b: Taken) {
    var end := pos + |b.text|;
    && b.text != "" && end <= |url| && url[pos..end] == b.text
    && match t
       case INT => b.text[0] in "0123456789+-" && b.cap.IntCap? && lib.strtoll(url, pos) == Scan(b.cap.i, end, false)
       case UINT => b.text[0] in "0123456789+" && b.cap.UintCap? && lib.strtoull(url, pos) == Scan(b.cap.u, end, false)
       case DOUBLE => b.text[0] in "0123456789+-." && b.cap.DoubleCap? && lib.strtod(url, pos) == Scan(b.cap.d, end, false)
       case STRING => b.cap == TextCap(b.text) && '/' !in b.text && (end < |url| ==> url[end] == '/')
       case PATH => b.cap == TextCap(b.text) && end == |url|
  }

  function Holes(rule: seq<Token>): nat {
    if rule == [] then 0 else (if rule[0].Param? then 1 else 0) + Holes(rule[1..])
  }

  /** The rule with texts in place of its parameters. */
  function Fill(rule: seq<Token>, bs: seq<Taken>): string
    requires |bs| == Holes(rule)
  {
    if rule == [] then ""
    else match rule[0]
      case Lit(c) => [c] + Fill(rule[1..], bs)
      case Param(_) => bs[0].text + Fill(rule[1..], bs[1..])
  }

  /** Each parameter takes its own text where it stands. */
  predicate AllTake(lib: Libc, rule: seq<Token>, url: string, pos: nat, bs: seq<Taken>)
    requires |bs| == Holes(rule)
  {
    if rule == [] then true
    else match rule[0]
      case Lit(_) => AllTake(lib, rule[1..], url, pos + 1, bs)
      case Param(t) => Takes(lib, t, url, pos, bs[0]) && AllTake(lib, rule[1..], url, pos + |bs[0].text|, bs[1..])
  }

  function IntsOf(bs: seq<Taken>): seq<int> {
    if bs == [] then [] else (if bs[0].cap.IntCap? then [bs[0].cap.i] else []) + IntsOf(bs[1..])
  }

  function UintsOf(bs: seq<Taken>): seq<nat> {
    if bs == [] then [] else (if bs[0].cap.UintCap? then [bs[0].cap.u] else []) + UintsOf(bs[1..])
  }

  function DoublesOf(bs: seq<Taken>): seq<real> {
    if bs == [] then [] else (if bs[0].cap.DoubleCap? then [bs[0].cap.d] else []) + DoublesOf(bs[1..])
  }

  function StringsOf(bs: seq<Taken>): seq<string> {
    if bs == [] then [] else (if bs[0].cap.TextCap? then [bs[0].cap.s] else []) + StringsOf(bs[1..])
  }

  /** The captures `ps` with those of `bs` behind them, each in the list of its kind. */
  function Collected(ps: RoutingParams, bs: seq<Taken>): RoutingParams {
    RoutingParams(ps.ints + IntsOf(bs), ps.uints + UintsOf(bs), ps.doubles + DoublesOf(bs), ps.strings + StringsOf(bs))
  }

  // ----- one parameter -----

  lemma {:induction false} SlashFromIs(url: string, pos: nat, e: nat)
    requires pos <= e <= |url| && '/' !in url[pos..e] && (e < |url| ==> url[e] == '/')
    ensures SlashFrom(url, pos) == e
    decreases |url| - pos
  {
    if pos < e {
      assert url[pos..e] == [url[pos]] + url[pos + 1..e];
      SlashFromIs(url, pos + 1, e);
    }
  }

  /** A parameter is consumed exactly as it takes its text. */
  lemma ConsumeTakes(lib: Libc, t: ParamType, url: string, pos: nat, b: Taken)
    requires pos < |url|
    ensures Takes(lib, t, url, pos, b) <==>
            && Consume(lib, t, url, pos) == Some(Piece(b.cap, pos + |b.text|)) && url[pos..pos + |b.text|] == b.text
  {
    match t {
      case STRING => StringTakes(lib, url, pos, b);
      case PATH => PathTakes(lib, url, pos, b);
      case _ => NumberTakes(lib, t, url, pos, b);
    }
  }

  lemma StringTakes(lib: Libc, url: string, pos: nat, b: Taken)
    requires pos < |url|
    ensures Takes(lib, STRING, url, pos, b) <==>
            && Consume(lib, STRING, url, pos) == Some(Piece(b.cap, pos + |b.text|)) && url[pos..pos + |b.text|] == b.text
  {
    hide SlashFrom;
    var end := pos + |b.text|;
    if b.text != "" && end <= |url| && url[pos..end] == b.text && '/' !in b.text && (end < |url| ==> url[end] == '/') {
      SlashFromIs(url, pos, end);
    }
  }

  lemma PathTakes(lib: Libc, url: string, pos: nat, b: Taken)
    requires pos < |url|
    ensures Takes(lib, PATH, url, pos, b) <==>
            && Consume(lib, PATH, url, pos) == Some(Piece(b.cap, pos + |b.text|)) && url[pos..pos + |b.text|] == b.text
  {
    assert url[pos..|url|] == url[pos..];
  }

  lemma NumberTakes(lib: Libc, t: ParamType, url: string, pos: nat, b: Taken)
    requires pos < |url| && (t.INT? || t.UINT? || t.DOUBLE?)
    ensures Takes(lib, t, url, pos, b) <==>
            && Consume(lib, t, url, pos) == Some(Piece(b.cap, pos + |b.text|)) && url[pos..pos + |b.text|] == b.text
  {
    hide SlashFrom;
    var end := pos + |b.text|;
    if b.text != "" && end <= |url| && url[pos..end] == b.text {
      assert b.text[0] == url[pos..end][0] == url[pos];
    }
  }

  // ----- whole rules -----

  lemma CollectOne(ps: RoutingParams, b: Taken, bs: seq<Taken>)
    ensures Collected(ps, [b] + bs) == Collected(ps.Push(b.cap), bs)
  {
    assert ([b] + bs)[1..] == bs;
  }

  lemma CollectNone(ps: RoutingParams)
    ensures Collected(ps, []) == ps
  {}

  /** A rule that matches is filled with what its captures were taken from. */
  lemma {:induction false} RunFills(lib: Libc, rule: seq<Token>, url: string, pos: nat, ps: RoutingParams) returns (bs: seq<Taken>)
    requires pos <= |url| && Run(lib, rule, url, pos, ps).Some?
    ensures |bs| == Holes(rule) && Fill(rule, bs) == url[pos..] && AllTake(lib, rule, url, pos, bs)
    ensures Run(lib, rule, url, pos, ps) == Some(Collected(ps, bs))
    decreases |rule|
  {
    hide Consume;
    hide Takes;
    hide Collected;
    if rule == [] {
      bs := [];
      CollectNone(ps);
    } else {
      match rule[0] {
        case Lit(c) =>
          bs := RunFills(lib, rule[1..], url, pos + 1, ps);
          assert url[pos..] == [c] + url[pos + 1..];
        case Param(t) =>
          var piece := Consume(lib, t, url, pos).value;
          var b := Taken(url[pos..piece.end], piece.cap);
          var rest := RunFills(lib, rule[1..], url, piece.end, ps.Push(piece.cap));
          ConsumeTakes(lib, t, url, pos, b);
          CollectOne(ps, b, rest);
          bs := [b] + rest;
          assert bs[1..] == rest && url[pos..] == b.text + url[piece.end..];
      }
    }
  }

  /** A URL that is a filled rule matches, with exactly the captures it was filled with. */
  lemma {:induction false} FilledRuns(lib: Libc, rule: seq<Token>, url: string, pos: nat, ps: RoutingParams, bs: seq<Taken>)
    requires |bs| == Holes(rule) && pos <= |url| && Fill(rule, bs) == url[pos..] && AllTake(lib, rule, url, pos, bs)
    ensures Run(lib, rule, url, pos, ps) == Some(Collected(ps, bs))
    decreases |rule|
  {
    hide Consume;
    hide Collected;
    if rule == [] {
      CollectNone(ps);
    } else {
      match rule[0] {
        case Lit(c) =>
          assert url[pos] == url[pos..][0] == c && url[pos + 1..] == url[pos..][1..] == Fill(rule[1..], bs);
          FilledRuns(lib, rule[1..], url, pos + 1, ps, bs);
        case Param(t) =>
          var b, rest := bs[0], bs[1..];
          ConsumeTakes(lib, t, url, pos, b);
          assert url[pos + |b.text|..] == url[pos..][|b.text|..] == Fill(rule[1..], rest);
          FilledRuns(lib, rule[1..], url, pos + |b.text|, ps.Push(b.cap), rest);
          CollectOne(ps, b, rest);
          assert bs == [b] + rest;
      }
    }
  }

  /** `bs` fills the rule to give the URL. */
  predicate Fills(lib: Libc, rule: seq<Token>, url: string, bs: seq<Taken>) {
    |bs| == Holes(rule) && Fill(rule, bs) == url && AllTake(lib, rule, url, 0, bs)
  }

  /** A rule matches exactly the URLs that it can be filled to give. */
  lemma MatchesIffFilled(lib: Libc, rule: seq<Token>, url: string)
    ensures Matches(lib, rule, url) <==> exists bs :: Fills(lib, rule, url, bs)
    ensures forall bs :: Fills(lib, rule, url, bs) ==> Run(lib, rule, url, 0, NO_PARAMS) == Some(Collected(NO_PARAMS, bs))
  {
    hide AllTake;
    hide Fill;
    hide Run;
    hide Collected;
    assert url[0..] == url;
    forall bs | Fills(lib, rule, url, bs) ensures Run(lib, rule, url, 0, NO_PARAMS) == Some(Collected(NO_PARAMS, bs)) {
      FilledRuns(lib, rule, url, 0, NO_PARAMS, bs);
    }
    if Matches(lib, rule, url) {
      var bs := RunFills(lib, rule, url, 0, NO_PARAMS);
      assert Fills(lib, rule, url, bs);
    }
  }

  /** The answer for a URL: the least index of the rules that can be filled to give it, with what that rule is filled with. */
  ghost predicate AnswersByFilling(lib: Libc, rules: RuleTable, url: string, f: Found) {
    if f.rule == 0 then
      f == NOTHING && forall r, bs :: r in rules ==> !Fills(lib, r, url, bs)
    else
      && (exists r, bs :: r in rules && rules[r] == f.rule && Fills(lib, r, url, bs) && f.params == Collected(NO_PARAMS, bs))
      && (forall r, bs :: r in rules && Fills(lib, r, url, bs) ==> f.rule <= rules[r])
  }

  /** This is the answer that matching rule by rule gives. */
  lemma AnswersAgree(lib: Libc, rules: RuleTable, url: string, f: Found)
    ensures Answers(lib, rules, url, f) <==> AnswersByFilling(lib, rules, url, f)
  {
    hide Fills;
    hide Run;
    hide Collected;
    forall r ensures Matches(lib, r, url) <==> exists bs :: Fills(lib, r, url, bs) { MatchesIffFilled(lib, r, url); }
    forall r, bs | Fills(lib, r, url, bs) ensures Run(lib, r, url, 0, NO_PARAMS) == Some(Collected(NO_PARAMS, bs)) {
      MatchesIffFilled(lib, r, url);
    }
    if f.rule != 0 && Answers(lib, rules, url, f) {
      var r :| r in rules && rules[r] == f.rule && Run(lib, r, url, 0, NO_PARAMS) == Some(f.params);
      assert Matches(lib, r, url);
      var bs :| Fills(lib, r, url, bs);
      assert f.params == Collected(NO_PARAMS, bs);
    }
  }

  // ----- rules without numbers -----

  predicate IsTextRule(rule: seq<Token>) {
    forall i :: 0 <= i < |rule| ==> rule[i].Lit? || rule[i].t.STRING? || rule[i].t.PATH?
  }

  function Insert(rule: seq<Token>, texts: seq<string>): string
    requires |texts| == Holes(rule)
  {
    if rule == [] then ""
    else match rule[0]
      case Lit(c) => [c] + Insert(rule[1..], texts)
      case Param(_) => texts[0] + Insert(rule[1..], texts[1..])
  }

  /** No string holds a slash, and each ends at one or at the end of the URL; a path is the rest of the URL. */
  predicate GoodTexts(rule: seq<Token>, texts: seq<string>)
    requires |texts| == Holes(rule)
  {
    if rule == [] then true
    else match rule[0]
      case Lit(_) => GoodTexts(rule[1..], texts)
      case Param(t) =>
        var rest := Insert(rule[1..], texts[1..]);
        && texts[0] != "" && (if t == PATH then rest == "" else '/' !in texts[0] && (rest == "" || rest[0] == '/'))
        && GoodTexts(rule[1..], texts[1..])
  }

  function AsTaken(texts: seq<string>): (bs: seq<Taken>)
    ensures |bs| == |texts|
  {
    if texts == [] then [] else [Taken(texts[0], TextCap(texts[0]))] + AsTaken(texts[1..])
  }

  lemma {:induction false} TakenTexts(texts: seq<string>)
    ensures Collected(NO_PARAMS, AsTaken(texts)) == RoutingParams([], [], [], texts)
  {
    if texts != [] {
      TakenTexts(texts[1..]);
      assert AsTaken(texts)[1..] == AsTaken(texts[1..]);
    }
  }

  lemma OneTextTakes(lib: Libc, t: ParamType, url: string, pos: nat, text: string)
    requires (t.STRING? || t.PATH?) && pos + |text| <= |url| && url[pos..pos + |text|] == text
    ensures var rest := url[pos + |text|..];
            Takes(lib, t, url, pos, Taken(text, TextCap(text))) <==>
              text != "" && if t == PATH then rest == "" else '/' !in text && (rest == "" || rest[0] == '/')
  {
    var end := pos + |text|;
    assert end < |url| ==> url[end] == url[end..][0];
  }

  lemma SplitUrl(url: string, pos: nat, a: string, b: string)
    requires pos <= |url| && url[pos..] == a + b
    ensures var end := pos + |a|; end <= |url| && url[pos..end] == a && url[end..] == b
  {
    assert url[pos..pos + |a|] == url[pos..][..|a|] && url[pos + |a|..] == url[pos..][|a|..];
  }

  /** Texts in their places are taken there. */
  lemma {:induction false} TextsTake(lib: Libc, rule: seq<Token>, url: string, pos: nat, texts: seq<string>)
    requires IsTextRule(rule) && |texts| == Holes(rule) && pos <= |url|
    requires Insert(rule, texts) == url[pos..]
    ensures Fill(rule, AsTaken(texts)) == url[pos..]
    ensures AllTake(lib, rule, url, pos, AsTaken(texts)) <==> GoodTexts(rule, texts)
    decreases |rule|
  {
    hide Takes;
    if rule != [] {
      match rule[0] {
        case Lit(c) =>
          SplitUrl(url, pos, [c], Insert(rule[1..], texts));
          TextsTake(lib, rule[1..], url, pos + 1, texts);
        case Param(t) =>
          SplitUrl(url, pos, texts[0], Insert(rule[1..], texts[1..]));
          assert AsTaken(texts) == [Taken(texts[0], TextCap(texts[0]))] + AsTaken(texts[1..]);
          TextsTake(lib, rule[1..], url, pos + |texts[0]|, texts[1..]);
          OneTextTakes(lib, t, url, pos, texts[0]);
      }
    }
  }

  /** A URL written from a rule and good texts matches the rule and gives exactly these texts back. */
  lemma WrittenUrlMatches(lib: Libc, rule: seq<Token>, texts: seq<string>)
    requires IsTextRule(rule) && |texts| == Holes(rule) && GoodTexts(rule, texts)
    ensures Run(lib, rule, Insert(rule, texts), 0, NO_PARAMS) == Some(RoutingParams([], [], [], texts))
  {
    var url := Insert(rule, texts);
    assert url[0..] == url;
    TakenTexts(texts);
    TextsTake(lib, rule, url, 0, texts);
    FilledRuns(lib, rule, url, 0, NO_PARAMS, AsTaken(texts));
  }

  function TextsOf(bs: seq<Taken>): seq<string> { if bs == [] then [] else [bs[0].text] + TextsOf(bs[1..]) }

  /** In a rule without numbers all captures are texts. */
  lemma {:induction false} AllTaken(lib: Libc, rule: seq<Token>, url: string, pos: nat, bs: seq<Taken>)
    requires IsTextRule(rule) && |bs| == Holes(rule) && AllTake(lib, rule, url, pos, bs)
    ensures |TextsOf(bs)| == |bs| && AsTaken(TextsOf(bs)) == bs && Insert(rule, TextsOf(bs)) == Fill(rule, bs)
    decreases |rule|
  {
    if rule != [] {
      match rule[0] {
        case Lit(_) => AllTaken(lib, rule[1..], url, pos + 1, bs);
        case Param(_) =>
          AllTaken(lib, rule[1..], url, pos + |bs[0].text|, bs[1..]);
          assert TextsOf(bs)[1..] == TextsOf(bs[1..]);
      }
    }
  }

  /** Conversely the captures of such a rule put in place of its parameters give the URL back. */
  lemma CapturesGiveUrl(lib: Libc, rule: seq<Token>, url: string)
    requires IsTextRule(rule) && Matches(lib, rule, url)
    ensures var ps := Run(lib, rule, url, 0, NO_PARAMS).value;
            && ps == RoutingParams([], [], [], ps.strings) && |ps.strings| == Holes(rule)
            && Insert(rule, ps.strings) == url && GoodTexts(rule, ps.strings)
  {
    var bs := RunFills(lib, rule, url, 0, NO_PARAMS);
    var texts := TextsOf(bs);
    AllTaken(lib, rule, url, 0, bs);
    assert url[0..] == url;
    TakenTexts(texts);
    TextsTake(lib, rule, url, 0, texts);
  }

  // ----- rules as they are written -----

  /** A rule string is characters and tags; the names of the tags and the kinds they stand for. */
  datatype RulePart = Char(c: char) | Tag(name: string)

  function TypeNamed(name: string): Option<ParamType> {
    if name == "int" then Some(INT)
    else if name == "uint" then Some(UINT)
    else if name == "float" || name == "double" then Some(DOUBLE)
    else if name == "str" || name == "string" then Some(STRING)
    else if name == "path" then Some(PATH)
    else None
  }

  function TagText(name: string): string { "<" + name + ">" }

  function RuleText(parts: seq<RulePart>): string {
    if parts == [] then ""
    else (match parts[0] case Char(c) => [c] case Tag(name) => TagText(name)) + RuleText(parts[1..])
  }

  predicate AreParts(parts: seq<RulePart>) {
    forall i :: 0 <= i < |parts| ==> match parts[i] case Char(c) => c != '<' case Tag(name) => TypeNamed(name).Some?
  }

  function TokensOf(parts: seq<RulePart>): seq<Token>
    requires AreParts(parts)
  {
    if parts == [] then []
    else [match parts[0] case Char(c) => Lit(c) case Tag(name) => Param(TypeNamed(name).value)] + TokensOf(parts[1..])
  }

  /** Two tags at one place are one. */
  lemma OneTag(url: string, i: nat, a: string, b: string)
    requires IsTagName(a) && IsTagName(b) && StartsAt(url, i, a) && StartsAt(url, i, b)
    ensures a == b
  {
    if |a| <= |b| { ShorterMatchIsPrefix(url, i, a, b); } else { ShorterMatchIsPrefix(url, i, b, a); }
    assert a[|a| - 1] == url[i..i + |a|][|a| - 1] && b[|b| - 1] == url[i..i + |b|][|b| - 1];
  }

  lemma NamesDiffer(n: nat, m: nat)
    requires n < m < |PARAM_TRAITS|
    ensures PARAM_TRAITS[n].name != PARAM_TRAITS[m].name
  {
    assert PARAM_TRAITS[n].name[1] != PARAM_TRAITS[m].name[1] || |PARAM_TRAITS[n].name| != |PARAM_TRAITS[m].name|;
  }

  lemma {:induction false} TagFound(url: string, i: nat, n: nat, m: nat)
    requires n <= m < |PARAM_TRAITS| && StartsAt(url, i, PARAM_TRAITS[m].name)
    ensures TraitFrom(url, i, n) == Some(PARAM_TRAITS[m])
    decreases m - n
  {
    hide StartsAt;
    if n < m {
      TagNames(n);
      TagNames(m);
      NamesDiffer(n, m);
      if StartsAt(url, i, PARAM_TRAITS[n].name) { OneTag(url, i, PARAM_TRAITS[n].name, PARAM_TRAITS[m].name); }
      TagFound(url, i, n + 1, m);
    }
  }

  lemma NamedTag(name: string) returns (m: nat)
    requires TypeNamed(name).Some?
    ensures m < |PARAM_TRAITS| && PARAM_TRAITS[m] == ParamTrait(TypeNamed(name).value, TagText(name))
  {
    m := if name == "int" then 0 else if name == "uint" then 1 else if name == "float" then 2 else if name == "double" then 3
         else if name == "str" then 4 else if name == "string" then 5 else 6;
  }

  lemma CharReads(url: string, i: nat, c: char, rest: string)
    requires c != '<' && i <= |url| && url[i..] == [c] + rest
    ensures i < |url| && url[i + 1..] == rest
    ensures WellFormed(url, i + 1) ==> WellFormed(url, i) && Tokens(url, i) == [Lit(c)] + Tokens(url, i + 1)
  {
    assert url[i] == url[i..][0] && url[i + 1..] == url[i..][1..];
  }

  lemma TagReads(url: string, i: nat, name: string, rest: string)
    requires TypeNamed(name).Some? && i <= |url| && url[i..] == TagText(name) + rest
    ensures var j := i + |TagText(name)|;
            && j <= |url| && url[j..] == rest
            && (WellFormed(url, j) ==> WellFormed(url, i) && Tokens(url, i) == [Param(TypeNamed(name).value)] + Tokens(url, j))
  {
    hide TypeNamed;
    hide TraitFrom;
    var m := NamedTag(name);
    var w := TagText(name);
    assert url[i] == url[i..][0] && url[i..i + |w|] == url[i..][..|w|] == w && url[i + |w|..] == url[i..][|w|..];
    TagFound(url, i, 0, m);
  }

  /** A rule string is read as the parts it was written from. */
  lemma {:induction false} RuleTextReads(url: string, i: nat, parts: seq<RulePart>)
    requires AreParts(parts) && i <= |url| && url[i..] == RuleText(parts)
    ensures WellFormed(url, i) && Tokens(url, i) == TokensOf(parts)
    decreases |parts|
  {
    hide TypeNamed;
    hide TagText;
    if parts != [] {
      hide WellFormed;
      hide Tokens;
      match parts[0] {
        case Char(c) =>
          CharReads(url, i, c, RuleText(parts[1..]));
          RuleTextReads(url, i + 1, parts[1..]);
        case Tag(name) =>
          TagReads(url, i, name, RuleText(parts[1..]));
          RuleTextReads(url, i + |TagText(name)|, parts[1..]);
      }
    }
  }
}
